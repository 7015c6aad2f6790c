/**
 refreshTokens with its awaits: any number of calls, interleaved with each other and with
 registrations, logins, logouts and time. A call verifies its token, reads the stored one,
 looks the user up and signs, and stores the new token, in four steps.

 `matchedAt`, `storedAt` and `saved` are history.
 */
module RefreshOverlap {
  import opened Results
  import opened Clock
  import opened Redis
  import opened Auth

  type CallId = nat

  datatype Stage =
    | Verified                 // before redis.get takes effect
    | Matched                  // the stored token is the call's
    | Signed(renewed: Token)   // before redis.set takes effect
    | Stored(renewed: Token)   // accepted
    | Refused

  datatype Call = Call(token: Token, stage: Stage, matchedAt: Option<nat> := None, storedAt: Option<nat> := None)

  datatype State = State(accounts: Accounts, step: nat, saved: set<Token>, calls: map<CallId, Call>)

  const Initial := State(Start.accounts, 0, {}, map[])

  datatype Event =
    | Other(op: Op)
    | Begin(c: CallId, token: Token)
    | Match(c: CallId)
    | SignNew(c: CallId)
    | Store(c: CallId)

  predicate AtStage(s: State, c: CallId, stage: Stage) {
    c in s.calls && s.calls[c].stage == stage
  }

  predicate Enabled(s: State, e: Event) {
    match e
    case Other(op) => !op.RefreshOp?
    case Begin(c, _) => c !in s.calls
    case Match(c) => AtStage(s, c, Verified)
    case SignNew(c) => AtStage(s, c, Matched)
    case Store(c) => c in s.calls && s.calls[c].stage.Signed?
  }

  /** The token an event saves, if it saves one. */
  function SavedBy(s: State, e: Event): Option<Token>
    requires Enabled(s, e)
  {
    match e
    case Other(op) =>
      var saver := SaverOf(s.accounts, op);
      if saver.Some? then Some(Sign(saver.value, s.accounts.tokens.now)) else None
    case Store(c) => Some(s.calls[c].stage.renewed)
    case _ => None
  }

  function NextCall(s: State, e: Event): Call
    requires Enabled(s, e) && !e.Other?
  {
    if e.Begin? then
      Call(e.token, if Verifies(e.token, s.accounts.tokens.now) then Verified else Refused)
    else
    var call := s.calls[e.c];
    match e
    case Match(_) =>
      if s.accounts.tokens.Lookup(call.token.userId) == Some(call.token) then
        call.(stage := Matched, matchedAt := Some(s.step))
      else
        call.(stage := Refused)
    case SignNew(_) =>
      var user := ById(s.accounts.users, call.token.userId);
      call.(stage := if user.Some? then Signed(Sign(user.value, s.accounts.tokens.now)) else Refused)
    case Store(_) => call.(stage := Stored(call.stage.renewed), storedAt := Some(s.step))
  }

  function NextAccounts(s: State, e: Event): Accounts
    requires Enabled(s, e)
  {
    match e
    case Other(op) => Step(Run(s.accounts, []), op).accounts
    case Store(c) =>
      var renewed := s.calls[c].stage.renewed;
      s.accounts.(tokens := s.accounts.tokens.SetEx(renewed.userId, REFRESH_TTL, renewed))
    case _ => s.accounts
  }

  function Next(s: State, e: Event): State
    requires Enabled(s, e)
  {
    State(
      NextAccounts(s, e),
      s.step + 1,
      if SavedBy(s, e).Some? then s.saved + {SavedBy(s, e).value} else s.saved,
      if e.Other? then s.calls else s.calls[e.c := NextCall(s, e)])
  }

  /** Whatever an event saves was not saved before. */
  predicate Fresh(s: State, e: Event)
    requires Enabled(s, e)
  {
    SavedBy(s, e).Some? ==> SavedBy(s, e).value !in s.saved
  }

  predicate FreshThroughout(s: State, es: seq<Event>)
    decreases |es|
  {
    es == [] || (Enabled(s, es[0]) && Fresh(s, es[0]) && FreshThroughout(Next(s, es[0]), es[1..]))
  }

  function RunOf(s: State, es: seq<Event>): State
    requires FreshThroughout(s, es)
    decreases |es|
  {
    if es == [] then s else RunOf(Next(s, es[0]), es[1..])
  }

  /* ---- What fresh runs keep ---- */

  predicate Current(s: State, t: Token) {
    t.userId in s.accounts.tokens.entries && s.accounts.tokens.entries[t.userId].value == t
  }

  predicate StoredOk(s: State, id: UserId) {
    id in s.accounts.tokens.entries ==>
      s.accounts.tokens.entries[id].value in s.saved && s.accounts.tokens.entries[id].value.userId == id
  }

  predicate CallOk(s: State, call: Call) {
    && (call.matchedAt.Some? ==> call.token in s.saved && call.matchedAt.value < s.step)
    && (call.stage.Matched? || call.stage.Signed? || call.stage.Stored? ==> call.matchedAt.Some?)
    && (call.stage.Verified? ==> call.matchedAt.None?)
    && (call.stage.Signed? ==> call.stage.renewed.userId == call.token.userId)
    && (call.stage.Stored? <==> call.storedAt.Some?)
    && (call.storedAt.Some? ==> call.storedAt.value < s.step && call.matchedAt.value < call.storedAt.value
                                && !Current(s, call.token))
  }

  /** Once a call has replaced a token, no call matches it any more. */
  ghost predicate OverlapInv(s: State) {
    forall c, d | c in s.calls && d in s.calls && s.calls[c].token == s.calls[d].token
                  && s.calls[c].storedAt.Some? && s.calls[d].matchedAt.Some? ::
      s.calls[d].matchedAt.value < s.calls[c].storedAt.value
  }

  ghost predicate Inv(s: State) {
    && (forall id :: StoredOk(s, id))
    && (forall c | c in s.calls :: CallOk(s, s.calls[c]))
    && OverlapInv(s)
  }

  lemma StoredKept(s: State, e: Event, id: UserId)
    requires Enabled(s, e) && StoredOk(s, id)
    ensures StoredOk(Next(s, e), id)
  {
  }

  /** A token that is not current becomes current only by being saved. */
  lemma CurrentMoves(s: State, e: Event, t: Token)
    requires Enabled(s, e) && Current(Next(s, e), t)
    ensures Current(s, t) || SavedBy(s, e) == Some(t)
  {
  }

  lemma SavedStays(s: State, e: Event)
    requires Enabled(s, e)
    ensures s.saved <= Next(s, e).saved
  {
  }

  lemma OwnCallKept(s: State, e: Event)
    requires Inv(s) && Enabled(s, e) && Fresh(s, e) && !e.Other?
    ensures CallOk(Next(s, e), NextCall(s, e))
  {
    if !e.Begin? {
      var call := s.calls[e.c];
      assert CallOk(s, call) && StoredOk(s, call.token.userId);
      if e.SignNew? && ById(s.accounts.users, call.token.userId).Some? {
        ByIdHasId(s.accounts.users, call.token.userId);
      }
    }
  }

  lemma CallKept(s: State, e: Event, call: Call)
    requires Inv(s) && Enabled(s, e) && Fresh(s, e) && CallOk(s, call)
    ensures CallOk(Next(s, e), call)
  {
    SavedStays(s, e);
    if call.storedAt.Some? && Current(Next(s, e), call.token) {
      CurrentMoves(s, e, call.token);
    }
  }

  lemma OverlapKept(s: State, e: Event)
    requires Inv(s) && Enabled(s, e)
    ensures OverlapInv(Next(s, e))
  {
    var s' := Next(s, e);
    forall c, d | c in s'.calls && d in s'.calls && s'.calls[c].token == s'.calls[d].token
                  && s'.calls[c].storedAt.Some? && s'.calls[d].matchedAt.Some?
      ensures s'.calls[d].matchedAt.value < s'.calls[c].storedAt.value
    {
      assert c in s.calls ==> CallOk(s, s.calls[c]);
      assert d in s.calls ==> CallOk(s, s.calls[d]);
    }
  }

  lemma StepKeepsInv(s: State, e: Event)
    requires Inv(s) && Enabled(s, e) && Fresh(s, e)
    ensures Inv(Next(s, e))
  {
    var s' := Next(s, e);
    forall id ensures StoredOk(s', id) {
      StoredKept(s, e, id);
    }
    forall c | c in s'.calls ensures CallOk(s', s'.calls[c]) {
      if !e.Other? && c == e.c {
        OwnCallKept(s, e);
      } else {
        CallKept(s, e, s.calls[c]);
      }
    }
    OverlapKept(s, e);
  }

  lemma {:induction false} RunKeepsInv(s: State, es: seq<Event>)
    requires Inv(s) && FreshThroughout(s, es)
    ensures Inv(RunOf(s, es))
    decreases |es|
  {
    if es != [] {
      StepKeepsInv(s, es[0]);
      RunKeepsInv(Next(s, es[0]), es[1..]);
    }
  }
}
