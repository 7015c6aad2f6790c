/** When interleaved refreshes accept a token once, exactly, and a run in which they accept it twice. */
module RefreshOnce {
  import opened Results
  import opened Clock
  import opened Redis
  import opened Auth
  import opened RefreshOverlap

  /**
   Rotation under interleaving: if signing always yields a new token, two accepted refreshes
   with one token overlap, each having read the stored token before the other stored its new one.
   */
  lemma AcceptedRefreshesOverlap(es: seq<Event>, c: CallId, d: CallId)
    requires FreshThroughout(Initial, es)
    requires c in RunOf(Initial, es).calls && d in RunOf(Initial, es).calls
    requires RunOf(Initial, es).calls[c].stage.Stored? && RunOf(Initial, es).calls[d].stage.Stored?
    requires RunOf(Initial, es).calls[c].token == RunOf(Initial, es).calls[d].token
    ensures var p, q := RunOf(Initial, es).calls[c], RunOf(Initial, es).calls[d];
            && p.matchedAt.Some? && q.matchedAt.Some? && p.storedAt.Some? && q.storedAt.Some?
            && p.matchedAt.value < q.storedAt.value && q.matchedAt.value < p.storedAt.value
  {
    RunKeepsInv(Initial, es);
    var s := RunOf(Initial, es);
    assert CallOk(s, s.calls[c]) && CallOk(s, s.calls[d]);
  }

  /* ---- When a token is accepted once, exactly ---- */

  /** The call's token was the stored one; it has not stored its new token yet. */
  predicate Pending(s: State, c: CallId) {
    c in s.calls && (s.calls[c].stage.Matched? || s.calls[c].stage.Signed?)
  }

  predicate PastCheck(s: State, c: CallId) {
    Pending(s, c) || (c in s.calls && s.calls[c].stage.Stored?)
  }

  /** A call finds its token stored while another call with that token is pending. */
  ghost predicate Clashes(s: State, e: Event)
    requires Enabled(s, e)
  {
    && e.Match? && s.accounts.tokens.Lookup(s.calls[e.c].token.userId) == Some(s.calls[e.c].token)
    && exists c :: Pending(s, c) && s.calls[c].token == s.calls[e.c].token
  }

  ghost predicate NoClash(s: State, es: seq<Event>)
    requires FreshThroughout(s, es)
    decreases |es|
  {
    es == [] || (!Clashes(s, es[0]) && NoClash(Next(s, es[0]), es[1..]))
  }

  ghost predicate OnePerToken(s: State) {
    forall c, d | PastCheck(s, c) && PastCheck(s, d) && s.calls[c].token == s.calls[d].token :: c == d
  }

  /** No two accepted calls had the same token. */
  ghost predicate AcceptedOnce(s: State) {
    forall c, d | c in s.calls && d in s.calls && s.calls[c].stage.Stored? && s.calls[d].stage.Stored?
                  && s.calls[c].token == s.calls[d].token ::
      c == d
  }

  /** Every call that passed its check has stored its new token. */
  ghost predicate AllStored(s: State) {
    forall c | c in s.calls && s.calls[c].matchedAt.Some? :: s.calls[c].stage.Stored?
  }

  lemma PastCheckMoves(s: State, e: Event, c: CallId)
    requires Enabled(s, e) && PastCheck(Next(s, e), c)
    ensures c in s.calls && Next(s, e).calls[c].token == s.calls[c].token
    ensures PastCheck(s, c)
         || (e == Match(c) && s.accounts.tokens.Lookup(s.calls[c].token.userId) == Some(s.calls[c].token))
  {
  }

  lemma OnePerTokenKept(s: State, e: Event)
    requires Inv(s) && OnePerToken(s) && Enabled(s, e) && !Clashes(s, e)
    ensures OnePerToken(Next(s, e))
  {
    var s' := Next(s, e);
    forall c, d | PastCheck(s', c) && PastCheck(s', d) && s'.calls[c].token == s'.calls[d].token ensures c == d {
      PastCheckMoves(s, e, c);
      PastCheckMoves(s, e, d);
      assert CallOk(s, s.calls[c]) && CallOk(s, s.calls[d]);
      assert PastCheck(s, c) && PastCheck(s, d) ==> c == d;
    }
  }

  lemma {:induction false} OnePerTokenAlways(s: State, es: seq<Event>)
    requires Inv(s) && OnePerToken(s) && FreshThroughout(s, es) && NoClash(s, es)
    ensures OnePerToken(RunOf(s, es))
    decreases |es|
  {
    if es != [] {
      StepKeepsInv(s, es[0]);
      OnePerTokenKept(s, es[0]);
      OnePerTokenAlways(Next(s, es[0]), es[1..]);
    }
  }

  /** A call that has passed its check stays one that has, with its token. */
  lemma {:induction false} MatchIsRemembered(s: State, es: seq<Event>, c: CallId)
    requires Inv(s) && FreshThroughout(s, es) && c in s.calls && s.calls[c].matchedAt.Some?
    ensures c in RunOf(s, es).calls
    ensures RunOf(s, es).calls[c].matchedAt.Some? && RunOf(s, es).calls[c].token == s.calls[c].token
    decreases |es|
  {
    if es != [] {
      assert CallOk(s, s.calls[c]);
      StepKeepsInv(s, es[0]);
      MatchIsRemembered(Next(s, es[0]), es[1..], c);
    }
  }

  lemma {:induction false} ClashMakesTwo(s: State, es: seq<Event>)
    requires Inv(s) && FreshThroughout(s, es) && !NoClash(s, es) && AllStored(RunOf(s, es))
    ensures !AcceptedOnce(RunOf(s, es))
    decreases |es|
  {
    var s' := Next(s, es[0]);
    StepKeepsInv(s, es[0]);
    if Clashes(s, es[0]) {
      var c :| Pending(s, c) && s.calls[c].token == s.calls[es[0].c].token;
      assert CallOk(s, s.calls[c]);
      MatchIsRemembered(s', es[1..], c);
      MatchIsRemembered(s', es[1..], es[0].c);
    } else {
      ClashMakesTwo(s', es[1..]);
    }
  }

  /**
   With fresh signing, and once every call that passed its check has stored its new token: no
   token was accepted twice if and only if no call found its token stored while another call
   with the same token had found it and not yet replaced it.
   */
  lemma AcceptedOnceIff(es: seq<Event>)
    requires FreshThroughout(Initial, es) && AllStored(RunOf(Initial, es))
    ensures AcceptedOnce(RunOf(Initial, es)) <==> NoClash(Initial, es)
  {
    if NoClash(Initial, es) {
      OnePerTokenAlways(Initial, es);
      var s := RunOf(Initial, es);
      forall c, d | c in s.calls && d in s.calls && s.calls[c].stage.Stored? && s.calls[d].stage.Stored?
                    && s.calls[c].token == s.calls[d].token
        ensures c == d
      {
        assert PastCheck(s, c) && PastCheck(s, d);
      }
    } else {
      ClashMakesTwo(Initial, es);
    }
  }

  /* ---- And overlapping calls do both succeed ---- */

  ghost predicate LeadsTo(es: seq<Event>, s: State) {
    FreshThroughout(Initial, es) && RunOf(Initial, es) == s
  }

  lemma {:induction false} RunAppend(s: State, es: seq<Event>, e: Event)
    requires FreshThroughout(s, es) && Enabled(RunOf(s, es), e) && Fresh(RunOf(s, es), e)
    ensures FreshThroughout(s, es + [e]) && RunOf(s, es + [e]) == Next(RunOf(s, es), e)
    decreases |es|
  {
    if es == [] {
      assert FreshThroughout(Next(s, e), (es + [e])[1..]);
      assert RunOf(Next(s, e), (es + [e])[1..]) == Next(s, e);
    } else {
      RunAppend(Next(s, es[0]), es[1..], e);
      assert (es + [e])[1..] == es[1..] + [e];
    }
  }

  lemma Extend(es: seq<Event>, s: State, e: Event) returns (es': seq<Event>, s': State)
    requires LeadsTo(es, s) && Enabled(s, e) && Fresh(s, e)
    ensures es' == es + [e] && s' == Next(s, e) && LeadsTo(es', s')
  {
    es', s' := es + [e], Next(s, e);
    RunAppend(Initial, es, e);
  }

  /** A user registers, and a second later two calls read the stored token. */
  lemma BothMatch(user: User) returns (es: seq<Event>, s: State)
    requires user.secret.Some? && user.isActive
    ensures LeadsTo(es, s)
    ensures s.accounts.users == [user] && s.accounts.tokens.now == SECOND && s.saved == {Sign(user, 0)}
    ensures s.calls.Keys == {1, 2} && s.step == 6
    ensures forall c | c in s.calls :: s.calls[c].token == Sign(user, 0) && s.calls[c].stage == Matched
  {
    es, s := Extend([], Initial, Other(RegisterOp(user.id, user.email, user.secret.value, user.role)));
    assert [] + [user] == [user];
    es, s := Extend(es, s, Other(WaitOp(SECOND)));
    es, s := Extend(es, s, Begin(1, Sign(user, 0)));
    es, s := Extend(es, s, Begin(2, Sign(user, 0)));
    es, s := Extend(es, s, Match(1));
    es, s := Extend(es, s, Match(2));
  }

  /**
   Without the overlap condition the once-only promise fails: a run with fresh signing in which
   two calls with one token are both accepted, and the token the first one got is dead.
   */
  lemma TwoCallsAccepted(user: User) returns (es: seq<Event>)
    requires user.secret.Some? && user.isActive
    ensures FreshThroughout(Initial, es)
    ensures var s := RunOf(Initial, es);
            && 1 in s.calls && 2 in s.calls
            && s.calls[1].token == s.calls[2].token
            && s.calls[1].stage.Stored? && s.calls[2].stage.Stored?
            && Holder(s.accounts, s.calls[1].stage.renewed).Err?
            && Holder(s.accounts, s.calls[2].stage.renewed).Ok?
  {
    var s;
    es, s := BothMatch(user);
    es, s := Extend(es, s, SignNew(1));
    es, s := Extend(es, s, Store(1));
    es, s := Extend(es, s, Other(WaitOp(SECOND)));
    es, s := Extend(es, s, SignNew(2));
    es, s := Extend(es, s, Store(2));
  }
}
