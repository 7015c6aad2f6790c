/** What replays return and when handlers repeat, in every run, store failures and overruns included. */
module IdempotencyReplay {
  import opened Results
  import opened Clock
  import opened IdempotencyProtocol

  /** `record` is what `p` answered, stored less than 24 hours before `r`'s `get`. */
  predicate LiveAnswer(s: System, p: RequestId, r: RequestId, record: Record) {
    && p in s.requests && r in s.requests
    && GotAfter(s.requests[p], s.requests[r])
    && s.requests[p].answer == Some(record)
    && s.requests[r].got.value.time < s.requests[p].recorded.value.time + 86_400_000
  }

  /**
   Every replayed response is the answer of the last request that recorded under the same
   key before the replay's `get`, and that record was then less than 24 hours old.
   */
  lemma ReplayIsLatestAnswer(s: System, r: RequestId) returns (p: RequestId)
    requires Reachable(s)
    requires r in s.requests && s.requests[r].phase.Replayed?
    ensures LiveAnswer(s, p, r, s.requests[r].phase.record)
    ensures forall other | other in s.requests && GotAfter(s.requests[other], s.requests[r]) ::
              s.requests[other].recorded.value.step <= s.requests[p].recorded.value.step
    ensures s.requests[r].locked.None?
  {
    ReachableInv(s);
    assert RequestOk(s.now, s.step, s.requests[r]) && ReplayOk(s, s.requests[r]);
    p := s.requests[r].phase.author;
  }

  /**
   In every run: a request whose `get` took effect while a record was live never runs the
   handler under the lock. So when one executes while the record of another is live, its
   `get` came before that record's `set`.
   */
  lemma RepeatNeedsEarlierGet(s: System, p: RequestId, q: RequestId)
    requires Reachable(s)
    requires HasRecorded(s, p) && Executed(s, q) && s.requests[p].key == s.requests[q].key
    requires s.requests[q].locked.value.time < s.requests[p].recorded.value.time + 86_400_000
    ensures HasGot(s, q) && s.requests[q].got.value.step < s.requests[p].recorded.value.step
  {
    ReachableInv(s);
    ExecutedMissed(s, p, q);
  }

  lemma ExecutedMissed(s: System, p: RequestId, q: RequestId)
    requires StampsInv(s) && MissesInv(s)
    requires HasRecorded(s, p) && Executed(s, q) && s.requests[p].key == s.requests[q].key
    requires s.requests[q].locked.value.time < s.requests[p].recorded.value.time + 86_400_000
    ensures HasGot(s, q) && s.requests[q].got.value.step < s.requests[p].recorded.value.step
  {
    assert RequestOk(s.now, s.step, s.requests[q]);
    assert !GotAfter(s.requests[p], s.requests[q]);
  }
}
