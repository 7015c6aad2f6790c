/** What clients of the middleware can count on: one handler at a time, and replies meant for them. */
module IdempotencyClients {
  import opened Results
  import opened Clock
  import opened Redis
  import opened IdempotencyProtocol
  import opened IdempotencyReplay
  import opened IdempotencyExclusion
  import opened IdempotencyStore
  import opened IdempotencyMiddleware

  /* ---- Storage keys ---- */

  /**
   What the fingerprint is for: with digests of one length, two requests share a storage key if
   and only if they sent the same idempotency key and have the same fingerprint.
   */
  lemma StorageKeysIff(header: string, fingerprint: string, header': string, fingerprint': string)
    requires |fingerprint| == |fingerprint'|
    ensures StorageKeyOf(header, fingerprint) == StorageKeyOf(header', fingerprint')
       <==> header == header' && fingerprint == fingerprint'
  {
    var a, b := StorageKeyOf(header, fingerprint), StorageKeyOf(header', fingerprint');
    if a == b {
      assert a[|header| + 1..] == fingerprint && b[|header'| + 1..] == fingerprint';
      assert a[..|header|] == header && b[..|header'|] == header';
    }
  }

  /** Which keys clients may send for their records to stay clear of the locks. */
  lemma StorageKeyPlainIff(header: string, fingerprint: string)
    ensures Plain(StorageKeyOf(header, fingerprint)) <==> !(LOCK <= header + ":")
  {
    var key := StorageKeyOf(header, fingerprint);
    assert key == (header + ":") + fingerprint;
    if |header| + 1 >= |LOCK| {
      assert key[..|LOCK|] == (header + ":")[..|LOCK|];
    } else {
      assert key[|header|] == ':' && LOCK[|header|] != ':';
    }
  }

  /* ---- The object follows the protocol ---- */

  /**
   Every run of the middleware object whose keys are apart is a run of the protocol, in the
   same order of events, and ends in a state the protocol's state represents.
   */
  lemma MiddlewareFollowsProtocol(es: seq<Event>, keys: set<StorageKey>)
    requires ProcessCanRun(Fresh, es) && Apart(keys)
    requires forall e | e in es :: ArrivesIn(e, keys)
    ensures CanRun(Init, es) && Represents(ProcessRun(Fresh, es), Run(Init, es), keys)
  {
    RunCovered(Fresh, Init, es, keys);
    RunRepresented(Fresh, Init, es, keys);
  }

  /* ---- Keys that are not apart ---- */

  /** The same events lead the object to `p` and the protocol to `s`. */
  ghost predicate Both(es: seq<Event>, p: Process, s: System) {
    && ProcessCanRun(Fresh, es) && ProcessRun(Fresh, es) == p
    && CanRun(Init, es) && Run(Init, es) == s
  }

  lemma {:induction false} ProcessAppend(p: Process, es: seq<Event>, e: Event)
    requires ProcessCanRun(p, es) && ProcessEnabled(ProcessRun(p, es), e)
    ensures ProcessCanRun(p, es + [e]) && ProcessRun(p, es + [e]) == ProcessNext(ProcessRun(p, es), e)
    decreases |es|
  {
    if es == [] {
      assert ProcessCanRun(ProcessNext(p, e), (es + [e])[1..]);
      assert ProcessRun(ProcessNext(p, e), (es + [e])[1..]) == ProcessNext(p, e);
    } else {
      ProcessAppend(ProcessNext(p, es[0]), es[1..], e);
      assert (es + [e])[1..] == es[1..] + [e];
    }
  }

  lemma Extended(es: seq<Event>, p: Process, s: System, e: Event) returns (es': seq<Event>, p': Process, s': System)
    requires Both(es, p, s) && ProcessEnabled(p, e) && Enabled(s, e)
    ensures es' == es + [e] && p' == ProcessNext(p, e) && s' == Next(s, e) && Both(es', p', s')
  {
    es', p', s' := es + [e], ProcessNext(p, e), Next(s, e);
    ProcessAppend(Fresh, es, e);
    RunAppend(Init, es, e);
  }

  /** A request gets the lock, in the object and in the protocol. */
  lemma LockedFirst(key: StorageKey) returns (es: seq<Event>, p: Process, s: System)
    ensures Both(es, p, s) && forall e | e in es :: e.Arrive? ==> e.key == key
    ensures p.db == Keyspace(0, map[LockKey(key) := Entry(LockedText, LOCK_TTL)])
    ensures p.calls == map[1 := Call(key, InHandler)]
    ensures s.now == 0 && s.locks.Keys == {key} && s.records == map[] && s.requests.Keys == {1}
    ensures InPhase(s, 1, Running) && s.requests[1].key == key
  {
    es, p, s := Extended([], Fresh, Init, Arrive(1, key));
    es, p, s := Extended(es, p, s, Get(1));
    es, p, s := Extended(es, p, s, TryLock(1));
  }

  /** It answers, and its answer is recorded. */
  lemma RecordedFirst(key: StorageKey, record: Record) returns (es: seq<Event>, p: Process, s: System)
    ensures Both(es, p, s) && forall e | e in es :: e.Arrive? ==> e.key == key
    ensures p.db.now == s.now == 0 && p.calls.Keys == s.requests.Keys == {1}
    ensures p.db.entries == map[LockKey(key) := Entry(LockedText, LOCK_TTL), RecordKey(key) := Entry(RecordJson(record), RECORD_TTL)]
    ensures s.locks.Keys == {key} && s.records.Keys == {key}
  {
    es, p, s := LockedFirst(key);
    es, p, s := Extended(es, p, s, AnswerJson(1, record));
    es, p, s := Extended(es, p, s, Set(1));
  }

  /** Then a request of the other key misses. */
  lemma SecondMisses(a: StorageKey, b: StorageKey, record: Record) returns (es: seq<Event>, p: Process, s: System)
    requires RecordKey(a) == LockKey(b)
    ensures Both(es, p, s) && forall e | e in es :: ArrivesIn(e, {a, b})
    ensures p.db.now == s.now == 0 && AtStage(p, 2, AtLock) && InPhase(s, 2, AwaitingLock)
    ensures p.calls[2].key == b && s.requests[2].key == b
    ensures p.db.Lookup(LockKey(b)).Some? && b !in s.locks
  {
    KeysCollideIff(a, b);
    KeysCollideIff(b, a);
    KeysInjective(a, b);
    es, p, s := RecordedFirst(a, record);
    es, p, s := Extended(es, p, s, Arrive(2, b));
    es, p, s := Extended(es, p, s, Get(2));
  }

  /**
   When the record of one key in use is the lock of another, the object departs from the
   protocol: after the first key has recorded, a request of the other one is refused although
   nobody holds its lock.
   */
  lemma CollisionDeparts(a: StorageKey, b: StorageKey, record: Record) returns (es: seq<Event>)
    requires RecordKey(a) == LockKey(b)
    ensures ProcessCanRun(Fresh, es) && CanRun(Init, es)
    ensures forall e | e in es :: ArrivesIn(e, {a, b})
    ensures AtStage(ProcessRun(Fresh, es), 2, Conflict) && InPhase(Run(Init, es), 2, Running)
  {
    var p, s;
    es, p, s := SecondMisses(a, b, record);
    es, p, s := Extended(es, p, s, TryLock(2));
  }

  /** Every run of the object on these keys is a run of the protocol and ends in a state it represents. */
  ghost predicate Follows(keys: set<StorageKey>) {
    forall es | ProcessCanRun(Fresh, es) && (forall e | e in es :: ArrivesIn(e, keys)) ::
      CanRun(Init, es) && Represents(ProcessRun(Fresh, es), Run(Init, es), keys)
  }

  /** The link between object and protocol holds on a set of keys exactly if the keys are apart. */
  lemma FollowsIff(keys: set<StorageKey>)
    ensures Follows(keys) <==> forall a, b | a in keys && b in keys :: a != LOCK + b
  {
    forall a, b ensures RecordKey(a) != LockKey(b) <==> a != LOCK + b {
      KeysCollideIff(a, b);
    }
    if Apart(keys) {
      forall es | ProcessCanRun(Fresh, es) && (forall e | e in es :: ArrivesIn(e, keys))
        ensures CanRun(Init, es) && Represents(ProcessRun(Fresh, es), Run(Init, es), keys)
      {
        MiddlewareFollowsProtocol(es, keys);
      }
    } else {
      var a, b :| a in keys && b in keys && RecordKey(a) == LockKey(b);
      var es := CollisionDeparts(a, b, Record(200, ""));
      assert forall e | e in es :: ArrivesIn(e, {a, b}) ==> ArrivesIn(e, keys);
      assert !CallsMatch(ProcessRun(Fresh, es), Run(Init, es), keys);
    }
  }

  /**
   So it is enough that no client sends an idempotency key that begins, with the colon after it,
   with the lock prefix: then the object follows the protocol, whatever the fingerprints are. A
   client is a pair of header and fingerprint.
   */
  lemma PlainClientsFollow(clients: set<(string, string)>)
    requires forall client | client in clients :: !(LOCK <= client.0 + ":")
    ensures Follows(set client | client in clients :: StorageKeyOf(client.0, client.1))
  {
    var keys := set client | client in clients :: StorageKeyOf(client.0, client.1);
    forall a, b | a in keys && b in keys ensures a != LOCK + b {
      var client :| client in clients && a == StorageKeyOf(client.0, client.1);
      StorageKeyPlainIff(client.0, client.1);
    }
    FollowsIff(keys);
  }

  /* ---- What clients of the object see ---- */

  predicate CallHolds(p: Process, r: RequestId) {
    r in p.calls && (p.calls[r].stage.InHandler? || (p.calls[r].stage.Flushing? && p.calls[r].stage.outbox != []))
  }

  /** Such a call is a holder of its key. */
  lemma CallHoldsKey(p: Process, s: System, keys: set<StorageKey>, r: RequestId)
    requires CallsMatch(p, s, keys) && CallHolds(p, r)
    ensures Holds(s, r, p.calls[r].key)
  {
    assert p.calls[r] == Call(s.requests[r].key, StageOf(s.requests[r].phase));
  }

  /** Mutual exclusion, said of the object itself. */
  lemma OneHandlerPerKey(es: seq<Event>, keys: set<StorageKey>, a: RequestId, b: RequestId)
    requires ProcessCanRun(Fresh, es) && Apart(keys)
    requires forall e | e in es :: ArrivesIn(e, keys)
    requires CallHolds(ProcessRun(Fresh, es), a) && CallHolds(ProcessRun(Fresh, es), b)
    requires ProcessRun(Fresh, es).calls[a].key == ProcessRun(Fresh, es).calls[b].key
    requires CanRun(Init, es) && NoTakeover(Init, es, ProcessRun(Fresh, es).calls[a].key)
    ensures a == b
  {
    MiddlewareFollowsProtocol(es, keys);
    var p, s := ProcessRun(Fresh, es), Run(Init, es);
    CallHoldsKey(p, s, keys, a);
    CallHoldsKey(p, s, keys, b);
    assert Uncontested(s, p.calls[a].key);
    MutualExclusion(s, p.calls[a].key, a, b);
  }

  lemma ReplyIsReplay(p: Process, s: System, keys: set<StorageKey>, r: RequestId)
    requires CallsMatch(p, s, keys) && r in p.calls && p.calls[r].stage.RepliedFromStore?
    ensures r in s.requests && s.requests[r].phase.Replayed?
    ensures s.requests[r].phase.record == p.calls[r].stage.record
  {
    assert p.calls[r] == Call(s.requests[r].key, StageOf(s.requests[r].phase));
  }

  /**
   A reply from the store is an answer some request of the same key gave through res.json,
   recorded less than 24 hours before.
   */
  lemma RepliesAreRecordedAnswers(es: seq<Event>, keys: set<StorageKey>, r: RequestId) returns (p: RequestId)
    requires ProcessCanRun(Fresh, es) && Apart(keys)
    requires forall e | e in es :: ArrivesIn(e, keys)
    requires r in ProcessRun(Fresh, es).calls && ProcessRun(Fresh, es).calls[r].stage.RepliedFromStore?
    ensures CanRun(Init, es)
    ensures LiveAnswer(Run(Init, es), p, r, ProcessRun(Fresh, es).calls[r].stage.record)
  {
    MiddlewareFollowsProtocol(es, keys);
    var s := Run(Init, es);
    ReplyIsReplay(ProcessRun(Fresh, es), s, keys, r);
    p := ReplayIsLatestAnswer(s, r);
  }

  /* ---- What requests the replies go to ---- */

  /** A request comes in, or one of the later steps is taken. */
  datatype Action =
    | Incoming(r: RequestId, httpMethod: string, header: Option<string>, fingerprint: string)
    | Later(e: Event)

  function EventsOf(actions: seq<Action>): seq<Event> {
    if actions == [] then [] else
    var rest := EventsOf(actions[1..]);
    match actions[0]
    case Incoming(r, httpMethod, header, fingerprint) =>
      var arrival := Arrival(r, httpMethod, header, fingerprint);
      (if arrival.Some? then [arrival.value] else []) + rest
    case Later(e) => (if e.Arrive? then [] else [e]) + rest
  }

  /** Request `r` came in as action `i`, with this idempotency key and fingerprint. */
  predicate CameAs(actions: seq<Action>, i: int, r: RequestId, header: string, fingerprint: string) {
    && 0 <= i < |actions|
    && (actions[i] == Incoming(r, "POST", Some(header), fingerprint)
        || actions[i] == Incoming(r, "PATCH", Some(header), fingerprint)
        || actions[i] == Incoming(r, "DELETE", Some(header), fingerprint))
    && header != ""
  }

  lemma {:induction false} ArrivalsComeIn(actions: seq<Action>, r: RequestId, key: StorageKey)
      returns (i: nat, header: string, fingerprint: string)
    requires Arrive(r, key) in EventsOf(actions)
    ensures CameAs(actions, i, r, header, fingerprint)
    ensures key == StorageKeyOf(header, fingerprint)
  {
    if actions[0].Incoming? && Arrival(actions[0].r, actions[0].httpMethod, actions[0].header, actions[0].fingerprint) == Some(Arrive(r, key)) {
      i, header, fingerprint := 0, actions[0].header.value, actions[0].fingerprint;
    } else {
      i, header, fingerprint := ArrivalsComeIn(actions[1..], r, key);
      i := i + 1;
    }
  }

  lemma {:induction false} CallsArrive(p: Process, es: seq<Event>, r: RequestId)
    requires ProcessCanRun(p, es) && r in ProcessRun(p, es).calls
    ensures Arrive(r, ProcessRun(p, es).calls[r].key) in es
         || (r in p.calls && p.calls[r].key == ProcessRun(p, es).calls[r].key)
    decreases |es|
  {
    if es != [] {
      CallsArrive(ProcessNext(p, es[0]), es[1..], r);
      assert es == [es[0]] + es[1..];
    }
  }

  /** Every call of the object came in with a key that its storage key tells. */
  lemma CallCameAs(actions: seq<Action>, r: RequestId) returns (i: nat, header: string, fingerprint: string)
    requires ProcessCanRun(Fresh, EventsOf(actions)) && r in ProcessRun(Fresh, EventsOf(actions)).calls
    ensures CameAs(actions, i, r, header, fingerprint)
    ensures ProcessRun(Fresh, EventsOf(actions)).calls[r].key == StorageKeyOf(header, fingerprint)
  {
    CallsArrive(Fresh, EventsOf(actions), r);
    i, header, fingerprint := ArrivalsComeIn(actions, r, ProcessRun(Fresh, EventsOf(actions)).calls[r].key);
  }

  /** No client's key begins, with its colon, with the lock prefix, and digests are 64 characters long. */
  predicate Admissible(actions: seq<Action>) {
    forall i | 0 <= i < |actions| && actions[i].Incoming? ::
      |actions[i].fingerprint| == 64 && (actions[i].header.Some? ==> !("lock:" <= actions[i].header.value + ":"))
  }

  lemma ActionsAreApart(actions: seq<Action>) returns (keys: set<StorageKey>)
    requires Admissible(actions)
    ensures Apart(keys) && forall e | e in EventsOf(actions) :: ArrivesIn(e, keys)
  {
    var es := EventsOf(actions);
    keys := set e | e in es && e.Arrive? :: e.key;
    forall a, b | a in keys && b in keys ensures RecordKey(a) != LockKey(b) {
      var e :| e in es && e.Arrive? && e.key == a;
      var i, header, fingerprint := ArrivalsComeIn(actions, e.r, a);
      StorageKeyPlainIff(header, fingerprint);
      KeysCollideIff(a, b);
    }
  }

  /**
   Over every run: a reply from the store is an answer another request gave through res.json
   less than 24 hours before, and that request had sent the same idempotency key and had the same
   fingerprint.
   */
  lemma RepliesMatchRequests(actions: seq<Action>, r: RequestId)
      returns (p: RequestId, i: nat, j: nat, header: string, fingerprint: string)
    requires Admissible(actions) && ProcessCanRun(Fresh, EventsOf(actions))
    requires r in ProcessRun(Fresh, EventsOf(actions)).calls
    requires ProcessRun(Fresh, EventsOf(actions)).calls[r].stage.RepliedFromStore?
    ensures CanRun(Init, EventsOf(actions))
    ensures LiveAnswer(Run(Init, EventsOf(actions)), p, r, ProcessRun(Fresh, EventsOf(actions)).calls[r].stage.record)
    ensures CameAs(actions, i, r, header, fingerprint) && CameAs(actions, j, p, header, fingerprint)
  {
    var es := EventsOf(actions);
    var keys := ActionsAreApart(actions);
    MiddlewareFollowsProtocol(es, keys);
    p := RepliesAreRecordedAnswers(es, keys, r);
    i, header, fingerprint := CallCameAs(actions, r);
    var header', fingerprint';
    j, header', fingerprint' := CallCameAs(actions, p);
    SameKeyCalls(ProcessRun(Fresh, es), Run(Init, es), keys, p, r);
    StorageKeysIff(header, fingerprint, header', fingerprint');
  }

  lemma SameKeyCalls(process: Process, s: System, keys: set<StorageKey>, p: RequestId, r: RequestId)
    requires CallsMatch(process, s, keys) && p in s.requests && r in s.requests
    requires s.requests[p].key == s.requests[r].key
    ensures process.calls[p].key == process.calls[r].key
  {
    assert process.calls[p] == Call(s.requests[p].key, StageOf(s.requests[p].phase));
    assert process.calls[r] == Call(s.requests[r].key, StageOf(s.requests[r].phase));
  }
}
