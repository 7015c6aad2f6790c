/**
 What the 30 s lock gives, one key at a time and in every run, store failures included:
 exactly when a key has one handler at a time, and what follows for its executions.
 */
module IdempotencyExclusion {
  import opened Results
  import opened Clock
  import opened IdempotencyProtocol
  import opened IdempotencyReplay

  /** `r` is between its successful lock and the end of its unlock. */
  predicate Holds(s: System, r: RequestId, key: StorageKey) {
    r in s.requests && s.requests[r].key == key && Holding(s.requests[r])
  }

  ghost predicate Exclusive(s: System, key: StorageKey) {
    forall p, q | Holds(s, p, key) && Holds(s, q, key) :: p == q
  }

  /** Every state of a run has at most one holder of the key. */
  ghost predicate ExclusiveRun(s: System, es: seq<Event>, key: StorageKey)
    requires CanRun(s, es)
    decreases |es|
  {
    Exclusive(s, key) && (es == [] || ExclusiveRun(Next(s, es[0]), es[1..], key))
  }

  /** The lock `q` took has outlived its 30 s. */
  predicate Overran(now: Time, q: Request) {
    q.locked.Some? && q.locked.value.time + 30_000 <= now
  }

  /** The lock of the key is free although a holder, past its 30 s, is not done yet, and someone takes it. */
  ghost predicate TakesOver(s: System, e: Event, key: StorageKey)
    requires Enabled(s, e)
  {
    && e.TryLock? && s.requests[e.r].key == key && !LockLive(s, key)
    && exists r :: Holds(s, r, key) && Overran(s.now, s.requests[r])
  }

  ghost predicate NoTakeover(s: System, es: seq<Event>, key: StorageKey)
    requires CanRun(s, es)
    decreases |es|
  {
    es == [] || (!TakesOver(s, es[0], key) && NoTakeover(Next(s, es[0]), es[1..], key))
  }

  /* ---- What runs without a takeover keep ---- */

  /** `q` took the lock, never removed it, and the lock has not expired yet. */
  predicate Claims(now: Time, q: Request) {
    q.locked.Some? && q.released.None? && now < q.locked.value.time + 30_000
  }

  predicate LockedBy(s: System, r: RequestId)
    requires r in s.requests && s.requests[r].locked.Some?
  {
    var q := s.requests[r];
    q.key in s.locks && s.locks[q.key] == Lock(r, q.locked.value.time + 30_000)
  }

  /** The lock entry of the key belongs to whoever claims it. */
  ghost predicate ClaimsInv(s: System, key: StorageKey) {
    forall r | r in s.requests && s.requests[r].key == key && Claims(s.now, s.requests[r]) :: LockedBy(s, r)
  }

  /** `p` took the lock before `q` did, under the same key. */
  predicate LockedBefore(p: Request, q: Request) {
    p.key == q.key && p.locked.Some? && q.locked.Some? && p.locked.value.step < q.locked.value.step
  }

  /** `p` was over, in every way that matters, when `q` took the lock. */
  predicate OverBefore(p: Request, q: Request)
    requires LockedBefore(p, q)
  {
    var at := q.locked.value;
    && !Holding(p)
    && (p.recorded.Some? ==> p.recorded.value.step < at.step && p.recorded.value.time <= at.time)
    && ((p.released.Some? && p.released.value.step < at.step) || p.locked.value.time + 30_000 <= at.time)
  }

  ghost predicate SerialInv(s: System, key: StorageKey) {
    forall p, q | p in s.requests && q in s.requests && s.requests[p].key == key
                  && LockedBefore(s.requests[p], s.requests[q]) ::
      OverBefore(s.requests[p], s.requests[q])
  }

  /** Nobody has taken the lock since a current holder did. */
  ghost predicate NewestHolds(s: System, key: StorageKey) {
    forall p, q | Executed(s, p) && s.requests[p].key == key && Holds(s, q, key) && p != q ::
      LockedBefore(s.requests[p], s.requests[q])
  }

  /** While a key has a holder, its lock entry is the holder's, or of a request whose `lock` call failed. */
  ghost predicate OwnLockInv(s: System, key: StorageKey) {
    forall r | Holds(s, r, key) && Executed(s, r) && key in s.locks ::
      LockedBy(s, r) || InPhase(s, s.locks[key].holder, Unprotected)
  }

  ghost predicate KeyInv(s: System, key: StorageKey) {
    ClaimsInv(s, key) && SerialInv(s, key) && NewestHolds(s, key) && OwnLockInv(s, key)
  }

  /** What one event leaves of the lock-related history of a request. */
  lemma LockHistoryKept(s: System, e: Event, r: RequestId)
    requires StampsInv(s) && Enabled(s, e) && r in s.requests
    ensures r in Next(s, e).requests
    ensures var q, q' := s.requests[r], Next(s, e).requests[r];
            && RequestOk(s.now, s.step, q)
            && q'.key == q.key
            && (q.locked.Some? ==> q'.locked == q.locked)
            && (q'.locked.Some? && q.locked.None? ==>
                  e == TryLock(r) && q'.locked == Here(s) && !LockLive(s, q.key))
            && (Holding(q') ==> q'.released.None? && (Holding(q) || e == TryLock(r)))
            && (q'.released.Some? && q.released.None? ==> e == Unlock(r))
            && (q.released.Some? ==> q'.released == q.released)
            && (q.locked.Some? && !Holding(q) ==> q' == q)
            && (q.phase.Unprotected? ==> q'.phase.Unprotected?)
  {
    assert RequestOk(s.now, s.step, s.requests[r]);
  }

  /** With no takeover, whoever gets the lock finds nobody holding or claiming it. */
  lemma NobodyAtLock(s: System, e: Event, key: StorageKey, r: RequestId)
    requires StampsInv(s) && KeyInv(s, key) && Enabled(s, e) && !TakesOver(s, e, key)
    requires e.TryLock? && s.requests[e.r].key == key && !LockLive(s, key)
    requires Executed(s, r) && s.requests[r].key == key
    ensures !Holding(s.requests[r]) && !Claims(s.now, s.requests[r])
  {
    assert RequestOk(s.now, s.step, s.requests[r]);
    assert Claims(s.now, s.requests[r]) ==> LockedBy(s, r);
    assert Holding(s.requests[r]) ==> Holds(s, r, key);
  }

  /** An unlock leaves the claims of all other requests of its key alone, since there are none. */
  lemma NoClaimBesideHolder(s: System, u: RequestId, r: RequestId, key: StorageKey)
    requires StampsInv(s) && KeyInv(s, key)
    requires Holds(s, u, key) && r in s.requests && s.requests[r].key == key && r != u
    ensures !Claims(s.now, s.requests[r])
  {
    assert RequestOk(s.now, s.step, s.requests[u]);
    assert Executed(s, r) ==> LockedBefore(s.requests[r], s.requests[u]);
  }

  /** The entry an unlock removes is another request's, and that request still claims it. */
  predicate RemovesClaim(s: System, e: Event, key: StorageKey)
    requires Enabled(s, e)
  {
    && e.Unlock? && s.requests[e.r].key == key && key in s.locks
    && var owner := s.locks[key].holder;
    owner != e.r && owner in s.requests && s.requests[owner].key == key && Claims(s.now, s.requests[owner])
  }

  /** Claims survive every event that is not an unlock of another's claimed lock, takeovers included. */
  lemma ClaimsSurvive(s: System, e: Event, key: StorageKey)
    requires StampsInv(s) && ClaimsInv(s, key) && Enabled(s, e) && !RemovesClaim(s, e, key)
    ensures ClaimsInv(Next(s, e), key)
  {
    var s' := Next(s, e);
    forall r | r in s'.requests && s'.requests[r].key == key && Claims(s'.now, s'.requests[r]) ensures LockedBy(s', r) {
      if r in s.requests {
        LockHistoryKept(s, e, r);
        if s.requests[r].locked.Some? {
          assert Claims(s.now, s.requests[r]) && LockedBy(s, r);
        }
      }
    }
  }

  lemma ClaimsKept(s: System, e: Event, key: StorageKey)
    requires StampsInv(s) && KeyInv(s, key) && Enabled(s, e)
    ensures ClaimsInv(Next(s, e), key)
  {
    if e.Unlock? && RemovesClaim(s, e, key) {
      NoClaimBesideHolder(s, e.r, s.locks[key].holder, key);
    }
    ClaimsSurvive(s, e, key);
  }

  lemma NewestKept(s: System, e: Event, key: StorageKey)
    requires StampsInv(s) && KeyInv(s, key) && Enabled(s, e) && !TakesOver(s, e, key)
    ensures NewestHolds(Next(s, e), key)
  {
    var s' := Next(s, e);
    forall p, q | Executed(s', p) && s'.requests[p].key == key && Holds(s', q, key) && p != q
      ensures LockedBefore(s'.requests[p], s'.requests[q])
    {
      assert p in s.requests && q in s.requests;
      LockHistoryKept(s, e, p);
      LockHistoryKept(s, e, q);
      if e == TryLock(q) {
        assert Executed(s, p);
      } else if e == TryLock(p) && s.requests[p].locked.None? {
        assert Holds(s, q, key) && Executed(s, q);
        NobodyAtLock(s, e, key, q);
        assert false;
      } else {
        assert Executed(s, p) && Holds(s, q, key);
        assert LockedBefore(s.requests[p], s.requests[q]);
      }
    }
  }

  lemma SerialKept(s: System, e: Event, key: StorageKey)
    requires StampsInv(s) && KeyInv(s, key) && Enabled(s, e) && !TakesOver(s, e, key)
    ensures SerialInv(Next(s, e), key)
  {
    var s' := Next(s, e);
    forall p, q | p in s'.requests && q in s'.requests && s'.requests[p].key == key
                  && LockedBefore(s'.requests[p], s'.requests[q])
      ensures OverBefore(s'.requests[p], s'.requests[q])
    {
      assert p in s.requests && q in s.requests;
      LockHistoryKept(s, e, p);
      LockHistoryKept(s, e, q);
      if s.requests[q].locked.Some? {
        assert Past(s.now, s.step, s.requests[q].locked);
        assert LockedBefore(s.requests[p], s.requests[q]);
        assert OverBefore(s.requests[p], s.requests[q]);
      } else {
        assert Executed(s, p);
        NobodyAtLock(s, e, key, p);
        assert s'.requests[p] == s.requests[p];
      }
    }
  }

  lemma OwnLockKept(s: System, e: Event, key: StorageKey)
    requires StampsInv(s) && KeyInv(s, key) && Enabled(s, e) && !TakesOver(s, e, key)
    ensures OwnLockInv(Next(s, e), key)
  {
    var s' := Next(s, e);
    forall r | Holds(s', r, key) && Executed(s', r) && key in s'.locks
      ensures LockedBy(s', r) || InPhase(s', s'.locks[key].holder, Unprotected)
    {
      LockHistoryKept(s, e, r);
      if s.requests[r].locked.Some? {
        assert Holds(s, r, key) && Executed(s, r);
        if key in s.locks && s'.locks[key] == s.locks[key] {
          if InPhase(s, s.locks[key].holder, Unprotected) {
            LockHistoryKept(s, e, s.locks[key].holder);
          }
        } else if e.TryLock? {
          NobodyAtLock(s, e, key, r);
        }
      }
    }
  }

  lemma KeyKept(s: System, e: Event, key: StorageKey)
    requires StampsInv(s) && KeyInv(s, key) && Enabled(s, e) && !TakesOver(s, e, key)
    ensures KeyInv(Next(s, e), key)
  {
    ClaimsKept(s, e, key);
    NewestKept(s, e, key);
    SerialKept(s, e, key);
    OwnLockKept(s, e, key);
  }

  lemma NewestIsSole(s: System, key: StorageKey)
    requires StampsInv(s) && NewestHolds(s, key)
    ensures Exclusive(s, key)
  {
    forall p, q | Holds(s, p, key) && Holds(s, q, key) ensures p == q {
      assert RequestOk(s.now, s.step, s.requests[p]) && RequestOk(s.now, s.step, s.requests[q]);
      assert p != q ==> LockedBefore(s.requests[p], s.requests[q]);
    }
  }

  lemma StepKeepsInv(s: System, e: Event)
    requires Inv(s) && Enabled(s, e)
    ensures Inv(Next(s, e))
  {
    StampsKept(s, e);
    RecordsKept(s, e);
    MissesKept(s, e);
    ReplaysKept(s, e);
  }

  lemma {:induction false} UncontestedRunIsExclusive(s: System, es: seq<Event>, key: StorageKey)
    requires Inv(s) && KeyInv(s, key) && CanRun(s, es) && NoTakeover(s, es, key)
    ensures ExclusiveRun(s, es, key)
    ensures Inv(Run(s, es)) && KeyInv(Run(s, es), key)
    decreases |es|
  {
    NewestIsSole(s, key);
    if es != [] {
      StepKeepsInv(s, es[0]);
      KeyKept(s, es[0], key);
      UncontestedRunIsExclusive(Next(s, es[0]), es[1..], key);
    }
  }

  lemma {:induction false} TakeoverMakesTwo(s: System, es: seq<Event>, key: StorageKey)
    requires CanRun(s, es) && !NoTakeover(s, es, key)
    ensures !ExclusiveRun(s, es, key)
    decreases |es|
  {
    if TakesOver(s, es[0], key) {
      var r :| Holds(s, r, key) && Overran(s.now, s.requests[r]);
      assert Holds(Next(s, es[0]), r, key) && Holds(Next(s, es[0]), es[0].r, key);
    } else {
      TakeoverMakesTwo(Next(s, es[0]), es[1..], key);
    }
  }

  /* ---- Mutual exclusion, exactly ---- */

  /**
   In every run, whatever fails and however long handlers take: a key has at most one request
   between `lock` and the end of its `unlock` throughout, if and only if nobody ever takes its
   lock while a holder that has passed its 30 s is not done.
   */
  lemma ExclusionIff(es: seq<Event>, key: StorageKey)
    requires CanRun(Init, es)
    ensures ExclusiveRun(Init, es, key) <==> NoTakeover(Init, es, key)
  {
    if NoTakeover(Init, es, key) {
      UncontestedRunIsExclusive(Init, es, key);
    } else {
      TakeoverMakesTwo(Init, es, key);
    }
  }

  /** States that runs without a takeover of the key lead to. */
  ghost predicate Uncontested(s: System, key: StorageKey) {
    exists es :: CanRun(Init, es) && NoTakeover(Init, es, key) && Run(Init, es) == s
  }

  lemma UncontestedInv(s: System, key: StorageKey)
    requires Uncontested(s, key)
    ensures Inv(s) && KeyInv(s, key)
  {
    var es :| CanRun(Init, es) && NoTakeover(Init, es, key) && Run(Init, es) == s;
    UncontestedRunIsExclusive(Init, es, key);
  }

  /** The one holder of such a key, until its 30 s are over, is the holder of the live lock entry. */
  lemma MutualExclusion(s: System, key: StorageKey, p: RequestId, q: RequestId)
    requires Uncontested(s, key) && Holds(s, p, key) && Holds(s, q, key)
    ensures p == q
    ensures !Overran(s.now, s.requests[p]) ==> LockLive(s, key) && s.locks[key].holder == p
  {
    UncontestedInv(s, key);
    NewestIsSole(s, key);
    assert RequestOk(s.now, s.step, s.requests[p]);
    if !Overran(s.now, s.requests[p]) {
      assert Claims(s.now, s.requests[p]) && LockedBy(s, p);
    }
  }

  /**
   `unlock` checks no owner. Yet it removes the request's own lock, or, after an overrun,
   nothing or what a failed `lock` call left; no other request's claim on any key is touched.
   */
  lemma OnlyHolderUnlocks(s: System, r: RequestId, key: StorageKey)
    requires Uncontested(s, key) && Enabled(s, Unlock(r)) && s.requests[r].key == key
    ensures !Overran(s.now, s.requests[r]) ==> LockLive(s, key) && s.locks[key].holder == r
    ensures key in s.locks ==> s.locks[key].holder == r || InPhase(s, s.locks[key].holder, Unprotected)
    ensures forall p | p != r && p in s.requests && Claims(s.now, s.requests[p]) && s.requests[p].key == key :: false
    ensures forall other | other != key :: other in Next(s, Unlock(r)).locks <==> other in s.locks
  {
    UncontestedInv(s, key);
    assert RequestOk(s.now, s.step, s.requests[r]) && Holds(s, r, key) && Executed(s, r);
    if !Overran(s.now, s.requests[r]) {
      assert Claims(s.now, s.requests[r]) && LockedBy(s, r);
    }
    forall p | p != r && p in s.requests && s.requests[p].key == key ensures !Claims(s.now, s.requests[p]) {
      NoClaimBesideHolder(s, r, p, key);
    }
  }

  /* ---- Whose lock an unlock removes, exactly ---- */

  /** An unlock takes effect while another request of the key claims its lock. */
  ghost predicate UnlocksBeside(s: System, e: Event, key: StorageKey)
    requires Enabled(s, e)
  {
    && e.Unlock? && s.requests[e.r].key == key
    && exists r :: r != e.r && r in s.requests && s.requests[r].key == key && Claims(s.now, s.requests[r])
  }

  ghost predicate RemovesNoClaim(s: System, es: seq<Event>, key: StorageKey)
    requires CanRun(s, es)
    decreases |es|
  {
    es == [] || (!RemovesClaim(s, es[0], key) && RemovesNoClaim(Next(s, es[0]), es[1..], key))
  }

  ghost predicate UnlocksAlone(s: System, es: seq<Event>, key: StorageKey)
    requires CanRun(s, es)
    decreases |es|
  {
    es == [] || (!UnlocksBeside(s, es[0], key) && UnlocksAlone(Next(s, es[0]), es[1..], key))
  }

  lemma BesideIsRemoval(s: System, e: Event, key: StorageKey)
    requires ClaimsInv(s, key) && Enabled(s, e)
    ensures UnlocksBeside(s, e, key) <==> RemovesClaim(s, e, key)
  {
    if UnlocksBeside(s, e, key) {
      var r :| r != e.r && r in s.requests && s.requests[r].key == key && Claims(s.now, s.requests[r]);
      assert LockedBy(s, r);
    }
  }

  lemma {:induction false} UnlocksAloneFrom(s: System, es: seq<Event>, key: StorageKey)
    requires StampsInv(s) && ClaimsInv(s, key) && CanRun(s, es)
    ensures RemovesNoClaim(s, es, key) <==> UnlocksAlone(s, es, key)
    decreases |es|
  {
    if es != [] {
      BesideIsRemoval(s, es[0], key);
      if !RemovesClaim(s, es[0], key) {
        StampsKept(s, es[0]);
        ClaimsSurvive(s, es[0], key);
        UnlocksAloneFrom(Next(s, es[0]), es[1..], key);
      }
    }
  }

  /**
   `unlock` checks no owner. In every run, no unlock of a key ever removes a lock that another
   request still claims, if and only if no unlock takes effect while another request of the key
   is under its 30 s with its lock not yet removed.
   */
  lemma UnlocksOwnIff(es: seq<Event>, key: StorageKey)
    requires CanRun(Init, es)
    ensures RemovesNoClaim(Init, es, key) <==> UnlocksAlone(Init, es, key)
  {
    UnlocksAloneFrom(Init, es, key);
  }

  /* ---- Why a request is refused ---- */

  /** A lock entry belongs to a request whose `lock` call failed, or to one that took it and has not removed it. */
  predicate EntryOwned(s: System, key: StorageKey) {
    key in s.locks ==>
      && s.locks[key].holder in s.requests && s.requests[s.locks[key].holder].key == key
      && (s.requests[s.locks[key].holder].phase.Unprotected?
          || (&& s.requests[s.locks[key].holder].locked.Some? && s.requests[s.locks[key].holder].released.None?
              && LockedBy(s, s.locks[key].holder)))
  }

  lemma EntryOwnedKept(s: System, e: Event, key: StorageKey)
    requires StampsInv(s) && EntryOwned(s, key) && Enabled(s, e)
    ensures EntryOwned(Next(s, e), key)
  {
    if key in s.locks && key in Next(s, e).locks && Next(s, e).locks[key] == s.locks[key] {
      LockHistoryKept(s, e, s.locks[key].holder);
    } else if key in Next(s, e).locks {
      assert e.TryLock? || e.LockFails?;
      LockHistoryKept(s, e, e.r);
      assert RequestOk(s.now, s.step, s.requests[e.r]);
    }
  }

  lemma {:induction false} EntryOwnedAlways(s: System, es: seq<Event>, key: StorageKey)
    requires StampsInv(s) && EntryOwned(s, key) && CanRun(s, es)
    ensures EntryOwned(Run(s, es), key)
    decreases |es|
  {
    if es != [] {
      StampsKept(s, es[0]);
      EntryOwnedKept(s, es[0], key);
      EntryOwnedAlways(Next(s, es[0]), es[1..], key);
    }
  }

  lemma UncontestedOwner(s: System, key: StorageKey)
    requires Uncontested(s, key)
    ensures EntryOwned(s, key)
  {
    var es :| CanRun(Init, es) && NoTakeover(Init, es, key) && Run(Init, es) == s;
    EntryOwnedAlways(Init, es, key);
  }

  /** A request got the lock, answered, and its lock was never removed. */
  predicate LeftLock(q: Request) {
    q.locked.Some? && (q.phase.Sent? || (q.phase.Answered? && q.released.None?))
  }

  /** While a lock entry of another request is live and nobody took over, no third request holds the key. */
  lemma LiveOwnerIsLast(s: System, key: StorageKey, r: RequestId)
    requires StampsInv(s) && KeyInv(s, key) && EntryOwned(s, key) && LockLive(s, key)
    requires Executed(s, s.locks[key].holder) && Holds(s, r, key)
    ensures r == s.locks[key].holder
  {
    var owner := s.locks[key].holder;
    assert RequestOk(s.now, s.step, s.requests[owner]) && RequestOk(s.now, s.step, s.requests[r]);
    var first, last := s.requests[owner], s.requests[r];
    assert r != owner ==> LockedBefore(first, last);
  }

  /**
   A 409 with nothing running, exactly: where nobody was taken over and a live lock was not left
   by a failed `lock` call, a waiting request is refused, and nobody holds the key if and only if
   the request that took the lock has ended through res.send or its unlock was lost.
   */
  lemma RefusedThoughIdleIff(s: System, key: StorageKey, q: RequestId)
    requires Uncontested(s, key) && LockLive(s, key)
    requires !InPhase(s, s.locks[key].holder, Unprotected)
    requires InPhase(s, q, AwaitingLock) && s.requests[q].key == key
    ensures InPhase(Next(s, TryLock(q)), q, Refused)
    ensures s.locks[key].holder in s.requests
    ensures (forall r :: !Holds(s, r, key)) <==> LeftLock(s.requests[s.locks[key].holder])
  {
    UncontestedInv(s, key);
    UncontestedOwner(s, key);
    var owner := s.locks[key].holder;
    assert RequestOk(s.now, s.step, s.requests[owner]);
    if LeftLock(s.requests[owner]) {
      forall r ensures !Holds(s, r, key) {
        if Holds(s, r, key) {
          LiveOwnerIsLast(s, key, r);
        }
      }
    } else {
      assert Holds(s, owner, key);
    }
  }

  /* ---- A condition on handlers alone ---- */

  /** No holder of the key has passed its 30 s. */
  ghost predicate Timely(s: System, key: StorageKey) {
    forall r | Holds(s, r, key) :: !Overran(s.now, s.requests[r])
  }

  ghost predicate TimelyRun(s: System, es: seq<Event>, key: StorageKey)
    requires CanRun(s, es)
    decreases |es|
  {
    Timely(s, key) && (es == [] || TimelyRun(Next(s, es[0]), es[1..], key))
  }

  /** When every handler of the key, its unlock included, ends in time, nobody is taken over. */
  lemma {:induction false} TimelyIsUncontested(s: System, es: seq<Event>, key: StorageKey)
    requires CanRun(s, es) && TimelyRun(s, es, key)
    ensures NoTakeover(s, es, key)
    decreases |es|
  {
    if es != [] {
      TimelyIsUncontested(Next(s, es[0]), es[1..], key);
    }
  }

  /* ---- Handlers without a lock ---- */

  predicate EntersUnlocked(e: Event) {
    e.GetFails? || e.LockFails?
  }

  lemma {:induction false} UnprotectedFrom(s: System, es: seq<Event>, r: RequestId)
    requires StampsInv(s) && CanRun(s, es)
    ensures InPhase(Run(s, es), r, Unprotected)
       <==> InPhase(s, r, Unprotected) || exists e :: e in es && EntersUnlocked(e) && e.r == r
    decreases |es|
  {
    if es != [] {
      StampsKept(s, es[0]);
      UnprotectedFrom(Next(s, es[0]), es[1..], r);
      UnprotectedStep(s, es[0], r);
      assert es == [es[0]] + es[1..];
    }
  }

  lemma UnprotectedStep(s: System, e: Event, r: RequestId)
    requires Enabled(s, e)
    ensures InPhase(Next(s, e), r, Unprotected) <==> InPhase(s, r, Unprotected) || (EntersUnlocked(e) && e.r == r)
  {
  }

  /** A handler runs without a lock exactly when the request's `get` or `lock` call failed. */
  lemma UnprotectedIff(es: seq<Event>, r: RequestId)
    requires CanRun(Init, es)
    ensures InPhase(Run(Init, es), r, Unprotected) <==> exists e :: e in es && EntersUnlocked(e) && e.r == r
  {
    UnprotectedFrom(Init, es, r);
  }

  /** `r` may be in its handler, with or without the lock. */
  predicate Handles(s: System, r: RequestId, key: StorageKey) {
    r in s.requests && s.requests[r].key == key && (Holding(s.requests[r]) || s.requests[r].phase.Unprotected?)
  }

  ghost predicate OneHandler(s: System, key: StorageKey) {
    forall p, q | Handles(s, p, key) && Handles(s, q, key) :: p == q
  }

  ghost predicate OneHandlerRun(s: System, es: seq<Event>, key: StorageKey)
    requires CanRun(s, es)
    decreases |es|
  {
    OneHandler(s, key) && (es == [] || OneHandlerRun(Next(s, es[0]), es[1..], key))
  }

  /** No request of the key ends up in a handler without a lock. */
  ghost predicate AllLocked(s: System, key: StorageKey) {
    forall r | r in s.requests && s.requests[r].key == key :: !s.requests[r].phase.Unprotected?
  }

  lemma {:induction false} AllLockedThroughout(s: System, es: seq<Event>, key: StorageKey)
    requires StampsInv(s) && CanRun(s, es) && AllLocked(Run(s, es), key)
    ensures OneHandlerRun(s, es, key) <==> ExclusiveRun(s, es, key)
    ensures AllLocked(s, key)
    decreases |es|
  {
    if es != [] {
      StampsKept(s, es[0]);
      AllLockedThroughout(Next(s, es[0]), es[1..], key);
      forall r | r in s.requests && s.requests[r].key == key ensures !s.requests[r].phase.Unprotected? {
        LockHistoryKept(s, es[0], r);
      }
    }
    assert forall r :: Handles(s, r, key) <==> Holds(s, r, key);
  }

  /**
   So, when no `get` or `lock` call of the key's requests fails, at most one handler of the key
   is ever running if and only if nobody takes the lock from a holder past its 30 s.
   */
  lemma OneHandlerIff(es: seq<Event>, key: StorageKey)
    requires CanRun(Init, es)
    requires forall e | e in es && EntersUnlocked(e) && e.r in Run(Init, es).requests :: Run(Init, es).requests[e.r].key != key
    ensures OneHandlerRun(Init, es, key) <==> NoTakeover(Init, es, key)
  {
    var s := Run(Init, es);
    forall r | r in s.requests && s.requests[r].key == key ensures !s.requests[r].phase.Unprotected? {
      UnprotectedIff(es, r);
    }
    AllLockedThroughout(Init, es, key);
    ExclusionIff(es, key);
  }

  /* ---- Executions of a key, one after the other ---- */

  /**
   Two executions under one key: the earlier one is over when the later one starts, and if
   it removed no lock the later one starts at least 30 s after it did. The later one starts
   while the earlier one's record is live only if the earlier one's `set` took effect between
   the later one's `get` and `lock`.
   */
  lemma ExecutionsAreSpaced(s: System, key: StorageKey, p: RequestId, q: RequestId)
    requires Uncontested(s, key)
    requires p in s.requests && q in s.requests && s.requests[p].key == key
    requires LockedBefore(s.requests[p], s.requests[q])
    ensures var first, second := s.requests[p], s.requests[q];
            && !Holding(first)
            && second.got.Some?
            && (first.released.None? ==> first.locked.value.time + 30_000 <= second.locked.value.time)
            && (first.recorded.Some? ==>
                  first.recorded.value.step < second.locked.value.step
                  && (second.locked.value.time < first.recorded.value.time + 86_400_000 ==>
                        second.got.value.step < first.recorded.value.step))
  {
    UncontestedInv(s, key);
    assert OverBefore(s.requests[p], s.requests[q]);
    assert RequestOk(s.now, s.step, s.requests[q]);
    if HasRecorded(s, p) && s.requests[q].locked.value.time < s.requests[p].recorded.value.time + 86_400_000 {
      ExecutedMissed(s, p, q);
    }
  }

  /** `p`'s `set` took effect between `q`'s `get` and `q`'s `lock`. */
  predicate SetBetween(p: Request, q: Request) {
    && p.recorded.Some? && q.got.Some? && q.locked.Some?
    && q.got.value.step < p.recorded.value.step < q.locked.value.step
  }

  /**
   The conditional at-most-once guarantee: unless its `set` fell between the later request's
   `get` and `lock`, an execution that recorded is followed by another of its key no earlier
   than 24 hours after it recorded.
   */
  lemma AtMostOncePerLiveRecord(s: System, key: StorageKey, p: RequestId, q: RequestId)
    requires Uncontested(s, key)
    requires p in s.requests && q in s.requests && s.requests[p].key == key
    requires LockedBefore(s.requests[p], s.requests[q]) && !SetBetween(s.requests[p], s.requests[q])
    requires s.requests[p].recorded.Some?
    ensures s.requests[p].recorded.value.time + 86_400_000 <= s.requests[q].locked.value.time
  {
    ExecutionsAreSpaced(s, key, p, q);
  }

  /**
   A handler that ends with res.send records nothing, and its lock stays: until the lock
   expires every other request of the key is answered 409, although nothing runs.
   */
  lemma SentBlocksUntilExpiry(s: System, key: StorageKey, r: RequestId, q: RequestId)
    requires Uncontested(s, key)
    requires InPhase(s, r, Sent) && InPhase(s, q, AwaitingLock)
    requires s.requests[r].key == key && s.requests[q].key == key
    ensures s.requests[r].recorded.None? && s.requests[r].locked.Some?
    ensures s.now < s.requests[r].locked.value.time + 30_000 ==> InPhase(Next(s, TryLock(q)), q, Refused)
  {
    UncontestedInv(s, key);
    assert RequestOk(s.now, s.step, s.requests[r]);
    if s.now < s.requests[r].locked.value.time + 30_000 {
      assert Claims(s.now, s.requests[r]) && LockedBy(s, r);
    }
  }
}
