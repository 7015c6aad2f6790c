/** AuthService: one refresh token per user in Redis, replaced by every login and refresh. */
module Auth {
  import opened Results
  import opened Clock
  import opened Redis

  const REFRESH_TTL: Time := 7 * 24 * 60 * 60 * SECOND

  /** JWT_REFRESH_EXPIRES_IN, by its default of 30 days, in seconds. */
  const JWT_LIFETIME: nat := 30 * 24 * 60 * 60

  type UserId = string

  /** `secret` is what the bcrypt hash was made from; None for accounts without a password. */
  datatype User = User(id: UserId, email: string, role: string, secret: Option<string>, isActive: bool)

  /** A JWT: the payload, the second it was issued in, and whether our key signed it. */
  datatype Token = Token(signed: bool, userId: UserId, email: string, role: string, issuedAt: nat)

  function Sign(user: User, now: Time): (t: Token)
    ensures t.signed && t.userId == user.id && t.email == user.email && t.role == user.role
    ensures t.issuedAt == now / 1_000
  {
    Token(true, user.id, user.email, user.role, now / SECOND)
  }

  predicate Verifies(t: Token, now: Time) {
    t.signed && now / SECOND < t.issuedAt + JWT_LIFETIME
  }

  datatype AuthError = EmailInUse | InvalidCredentials | AccountDisabled | InvalidRefreshToken

  datatype Accounts = Accounts(tokens: Keyspace<UserId, Token>, users: seq<User>)

  function ByEmail(users: seq<User>, email: string): Option<User> {
    if users == [] then None else if users[0].email == email then Some(users[0]) else ByEmail(users[1..], email)
  }

  function ById(users: seq<User>, id: UserId): Option<User> {
    if users == [] then None else if users[0].id == id then Some(users[0]) else ById(users[1..], id)
  }

  function Save(a: Accounts, user: User): Accounts {
    a.(tokens := a.tokens.SetEx(user.id, REFRESH_TTL, Sign(user, a.tokens.now)))
  }

  /** Everything `login` checks. */
  function Credentials(a: Accounts, email: string, password: string): Result<User, AuthError> {
    var user := ByEmail(a.users, email);
    if user.None? || user.value.secret.None? then Err(InvalidCredentials)
    else if !user.value.isActive then Err(AccountDisabled)
    else if user.value.secret.value != password then Err(InvalidCredentials)
    else Ok(user.value)
  }

  /** Everything `refreshTokens` checks. */
  function Holder(a: Accounts, t: Token): Result<User, AuthError> {
    if !Verifies(t, a.tokens.now) || a.tokens.Lookup(t.userId) != Some(t) then Err(InvalidRefreshToken) else
    var user := ById(a.users, t.userId);
    if user.None? then Err(InvalidRefreshToken) else Ok(user.value)
  }

  /** The USER_REGISTERED payload. */
  datatype UserRegistered = UserRegistered(userId: UserId, email: string)

  class AuthService {
    const redis: Server<UserId, Token>
    var users: seq<User>
    var emitted: seq<UserRegistered>       // handed to the event bus

    constructor (redis: Server<UserId, Token>)
      ensures this.redis == redis && users == [] && emitted == []
    {
      this.redis := redis;
      users, emitted := [], [];
    }

    function View(): Accounts
      reads this, redis
    {
      Accounts(redis.View(), users)
    }

    method SaveRefreshToken(user: User) returns (token: Token)
      modifies redis
      ensures token == Sign(user, redis.now)
      ensures View() == Save(old(View()), user)
    {
      token := Sign(user, redis.now);
      redis.SetEx(user.id, REFRESH_TTL, token);
    }

    /** `id` is the new row's uuid. */
    method Register(id: UserId, email: string, password: string, role: string) returns (outcome: Result<Token, AuthError>)
      modifies this`users, this`emitted, redis
      ensures outcome.Err? <==> ByEmail(old(users), email).Some?
      ensures outcome.Err? ==> outcome.error == EmailInUse && View() == old(View())
      ensures emitted == old(emitted) + if outcome.Ok? then [UserRegistered(id, email)] else []
      ensures var user := User(id, email, role, Some(password), true);
              outcome.Ok? ==> View() == Save(old(View()).(users := old(users) + [user]), user)
                              && outcome.value == Sign(user, redis.now)
    {
      var existing := ByEmail(users, email);
      if existing.Some? {
        return Err(EmailInUse);
      }
      var user := User(id, email, role, Some(password), true);
      users := users + [user];
      var token := SaveRefreshToken(user);
      emitted := emitted + [UserRegistered(user.id, user.email)];
      outcome := Ok(token);
    }

    method Login(email: string, password: string) returns (outcome: Result<Token, AuthError>)
      modifies redis
      ensures var user := Credentials(old(View()), email, password);
              match user
              case Err(e) => outcome == Err(e) && View() == old(View())
              case Ok(u) => outcome == Ok(Sign(u, redis.now)) && View() == Save(old(View()), u)
    {
      var user := ByEmail(users, email);
      if user.None? || user.value.secret.None? {
        return Err(InvalidCredentials);
      }
      if !user.value.isActive {
        return Err(AccountDisabled);
      }
      if user.value.secret.value != password {
        return Err(InvalidCredentials);
      }
      var token := SaveRefreshToken(user.value);
      outcome := Ok(token);
    }

    method RefreshTokens(token: Token) returns (outcome: Result<Token, AuthError>)
      modifies redis
      ensures var user := Holder(old(View()), token);
              match user
              case Err(e) => outcome == Err(e) && View() == old(View())
              case Ok(u) => outcome == Ok(Sign(u, redis.now)) && View() == Save(old(View()), u)
    {
      if !Verifies(token, redis.now) {
        return Err(InvalidRefreshToken);
      }
      var stored := redis.Get(token.userId);
      if stored != Some(token) {
        return Err(InvalidRefreshToken);
      }
      var user := ById(users, token.userId);
      if user.None? {
        return Err(InvalidRefreshToken);
      }
      var renewed := SaveRefreshToken(user.value);
      outcome := Ok(renewed);
    }

    method Logout(userId: UserId)
      modifies redis
      ensures View() == old(View()).(tokens := old(View()).tokens.Del(userId))
    {
      redis.Del(userId);
    }
  }

  /* ---- Runs ---- */

  datatype Op =
    | RegisterOp(id: UserId, email: string, password: string, role: string)
    | LoginOp(email: string, password: string)
    | RefreshOp(token: Token)
    | LogoutOp(userId: UserId)
    | WaitOp(elapsed: Time)

  /** What a run did to the tokens, oldest first. */
  datatype Entry =
    | Saved(token: Token, at: Time)
    | LoggedOut(userId: UserId)
    | Refreshed(token: Token)         // `token` was accepted by refreshTokens

  datatype Run = Run(accounts: Accounts, log: seq<Entry>)

  const Start := Run(Accounts(Keyspace(0, map[]), []), [])

  /** The user whose token an operation replaces. */
  function SaverOf(a: Accounts, op: Op): Option<User> {
    match op
    case RegisterOp(id, email, password, role) =>
      if ByEmail(a.users, email).Some? || ById(a.users, id).Some? then None
      else Some(User(id, email, role, Some(password), true))
    case LoginOp(email, password) =>
      var user := Credentials(a, email, password);
      if user.Ok? then Some(user.value) else None
    case RefreshOp(token) =>
      var user := Holder(a, token);
      if user.Ok? then Some(user.value) else None
    case _ => None
  }

  function Step(run: Run, op: Op): Run {
    var a := run.accounts;
    var saver := SaverOf(a, op);
    if saver.Some? then
      var token := Sign(saver.value, a.tokens.now);
      var users := if op.RegisterOp? then a.users + [saver.value] else a.users;
      Run(Save(a.(users := users), saver.value),
          run.log + (if op.RefreshOp? then [Refreshed(op.token)] else []) + [Saved(token, a.tokens.now)])
    else if op.LogoutOp? then
      Run(a.(tokens := a.tokens.Del(op.userId)), run.log + [LoggedOut(op.userId)])
    else if op.WaitOp? then
      run.(accounts := a.(tokens := a.tokens.Advance(op.elapsed)))
    else
      run
  }

  function Steps(run: Run, ops: seq<Op>): Run
    decreases |ops|
  {
    if ops == [] then run else Steps(Step(run, ops[0]), ops[1..])
  }

  /** The last token saved for a user and not logged out since, with the time of the save. */
  function Standing(log: seq<Entry>, userId: UserId): Option<Entry> {
    if log == [] then None else
    var last := log[|log| - 1];
    if last.Saved? && last.token.userId == userId then Some(last)
    else if last.LoggedOut? && last.userId == userId then None
    else Standing(log[..|log| - 1], userId)
  }

  lemma StandingAppend(log: seq<Entry>, e: Entry, userId: UserId)
    ensures Standing(log + [e], userId)
         == if e.Saved? && e.token.userId == userId then Some(e)
            else if e.LoggedOut? && e.userId == userId then None
            else Standing(log, userId)
  {
    assert (log + [e])[..|log + [e]| - 1] == log;
  }

  predicate StandingStored(run: Run, userId: UserId) {
    var standing := Standing(run.log, userId);
    var entries := run.accounts.tokens.entries;
    if standing.None? then userId !in entries
    else standing.value.Saved? && userId in entries
         && entries[userId] == Redis.Entry(standing.value.token, standing.value.at + REFRESH_TTL)
  }

  lemma {:induction false} ByIdHasId(users: seq<User>, id: UserId)
    requires ById(users, id).Some?
    ensures ById(users, id).value.id == id
  {
    if users[0].id != id {
      ByIdHasId(users[1..], id);
    }
  }

  lemma {:induction false} ByIdIff(users: seq<User>, id: UserId)
    ensures ById(users, id).Some? <==> exists user :: user in users && user.id == id
    ensures ById(users, id).Some? ==> ById(users, id).value in users && ById(users, id).value.id == id
  {
    if users != [] {
      ByIdIff(users[1..], id);
      assert users == [users[0]] + users[1..];
    }
  }

  lemma StandingKept(run: Run, op: Op, userId: UserId)
    requires StandingStored(run, userId)
    ensures StandingStored(Step(run, op), userId)
  {
    var a := run.accounts;
    var saver := SaverOf(a, op);
    if saver.Some? {
      var saved := Saved(Sign(saver.value, a.tokens.now), a.tokens.now);
      if op.RefreshOp? {
        StandingAppend(run.log, Refreshed(op.token), userId);
        StandingAppend(run.log + [Refreshed(op.token)], saved, userId);
      } else {
        assert run.log + [] == run.log;
        StandingAppend(run.log, saved, userId);
      }
    } else if op.LogoutOp? {
      StandingAppend(run.log, LoggedOut(op.userId), userId);
    }
  }

  lemma {:induction false} StandingAlways(run: Run, ops: seq<Op>, userId: UserId)
    requires StandingStored(run, userId)
    ensures StandingStored(Steps(run, ops), userId)
    decreases |ops|
  {
    if ops != [] {
      StandingKept(run, ops[0], userId);
      StandingAlways(Step(run, ops[0]), ops[1..], userId);
    }
  }

  /** `t` is its user's last saved token, less than 7 days old and not logged out since. */
  predicate IsCurrent(run: Run, t: Token) {
    var standing := Standing(run.log, t.userId);
    && standing.Some? && standing.value.Saved?
    && standing.value.token == t
    && run.accounts.tokens.now < standing.value.at + 604_800_000
  }

  /**
   After any sequence of operations, refreshTokens accepts a token if and only if our key signed
   it less than 30 days before, its user exists, and it is the user's last saved token, saved less than 7 days
   before and not followed by a logout. So a user has at most one acceptable token.
   */
  lemma RefreshAcceptsIff(ops: seq<Op>, t: Token)
    ensures var run := Steps(Start, ops);
            Holder(run.accounts, t).Ok? ==
              (&& t.signed && run.accounts.tokens.now / 1_000 < t.issuedAt + 2_592_000
               && (exists user :: user in run.accounts.users && user.id == t.userId)
               && IsCurrent(run, t))
    ensures var run := Steps(Start, ops);
            Holder(run.accounts, t).Ok? ==>
              Holder(run.accounts, t).value in run.accounts.users && Holder(run.accounts, t).value.id == t.userId
  {
    StandingAlways(Start, ops, t.userId);
    ByIdIff(Steps(Start, ops).accounts.users, t.userId);
  }

  lemma AtMostOneAcceptable(ops: seq<Op>, t: Token, other: Token)
    requires t.userId == other.userId
    requires Holder(Steps(Start, ops).accounts, t).Ok? && Holder(Steps(Start, ops).accounts, other).Ok?
    ensures t == other
  {
    RefreshAcceptsIff(ops, t);
    RefreshAcceptsIff(ops, other);
  }

  /**
   Rotation, exactly: right after a successful refresh the old token is refused, unless the
   new one was signed from the same account data within the same second and so is the old one.
   */
  lemma OldTokenRefusedIff(run: Run, t: Token)
    requires Holder(run.accounts, t).Ok?
    ensures var user := Holder(run.accounts, t).value;
            var after := Step(run, RefreshOp(t)).accounts;
            Holder(after, t).Err? ==
              (t.issuedAt != run.accounts.tokens.now / SECOND || t.email != user.email || t.role != user.role)
  {
    ByIdHasId(run.accounts.users, t.userId);
  }

  /* ---- How often a token is accepted ---- */

  /** How often a run saved a token. */
  function Saves(log: seq<Entry>, t: Token): nat {
    if log == [] then 0
    else Saves(log[..|log| - 1], t) + if log[|log| - 1].Saved? && log[|log| - 1].token == t then 1 else 0
  }

  function Acceptances(log: seq<Entry>, t: Token): nat {
    multiset(log)[Refreshed(t)]
  }

  /** `t` is its user's last saved token and not logged out since. */
  predicate Stands(log: seq<Entry>, t: Token) {
    var standing := Standing(log, t.userId);
    standing.Some? && standing.value.Saved? && standing.value.token == t
  }

  /** Every acceptance of a token uses up one save of it, and a standing token is a save not used up. */
  predicate PaidFor(log: seq<Entry>, t: Token) {
    Acceptances(log, t) + (if Stands(log, t) then 1 else 0) <= Saves(log, t)
  }

  /** One entry at a time. */
  lemma EntryEffects(log: seq<Entry>, e: Entry, t: Token)
    ensures Acceptances(log + [e], t) == Acceptances(log, t) + if e == Refreshed(t) then 1 else 0
    ensures Saves(log + [e], t) == Saves(log, t) + if e.Saved? && e.token == t then 1 else 0
    ensures e.Saved? ==> (Stands(log + [e], t) <==> e.token == t || (e.token.userId != t.userId && Stands(log, t)))
    ensures !e.Saved? && Stands(log + [e], t) ==> Stands(log, t)
  {
    assert (log + [e])[..|log + [e]| - 1] == log;
    StandingAppend(log, e, t.userId);
  }

  /** A save pays for the token it leaves standing. */
  lemma PaidBySave(log: seq<Entry>, newest: Token, at: Time, t: Token)
    requires PaidFor(log, t) || (newest.userId == t.userId && Acceptances(log, t) <= Saves(log, t))
    ensures PaidFor(log + [Saved(newest, at)], t)
  {
    EntryEffects(log, Saved(newest, at), t);
  }

  /** A refresh uses up the standing token, and saves another for the same user. */
  lemma PaidByRefresh(log: seq<Entry>, token: Token, newest: Token, at: Time, t: Token)
    requires PaidFor(log, t) && Stands(log, token) && newest.userId == token.userId
    ensures PaidFor(log + [Refreshed(token)] + [Saved(newest, at)], t)
  {
    EntryEffects(log, Refreshed(token), t);
    PaidBySave(log + [Refreshed(token)], newest, at, t);
  }

  lemma PaidKept(run: Run, op: Op, t: Token)
    requires (forall userId :: StandingStored(run, userId)) && PaidFor(run.log, t)
    ensures PaidFor(Step(run, op).log, t)
  {
    var a := run.accounts;
    var saver := SaverOf(a, op);
    if saver.Some? {
      var token := Sign(saver.value, a.tokens.now);
      if op.RefreshOp? {
        ByIdHasId(a.users, op.token.userId);
        assert StandingStored(run, op.token.userId);
        PaidByRefresh(run.log, op.token, token, a.tokens.now, t);
      } else {
        assert run.log + [] == run.log;
        PaidBySave(run.log, token, a.tokens.now, t);
      }
    } else if op.LogoutOp? {
      EntryEffects(run.log, LoggedOut(op.userId), t);
    }
  }

  lemma {:induction false} PaidAlways(run: Run, ops: seq<Op>, t: Token)
    requires (forall userId :: StandingStored(run, userId)) && PaidFor(run.log, t)
    ensures PaidFor(Steps(run, ops).log, t)
    decreases |ops|
  {
    if ops != [] {
      forall userId ensures StandingStored(Step(run, ops[0]), userId) {
        StandingKept(run, ops[0], userId);
      }
      PaidKept(run, ops[0], t);
      PaidAlways(Step(run, ops[0]), ops[1..], t);
    }
  }

  /**
   With any signing at all: over every run a token succeeds in no more refreshes than times it
   was saved, so only a token that was signed anew, unchanged, can succeed again.
   */
  lemma AcceptedNoMoreThanSaved(ops: seq<Op>, t: Token)
    ensures Acceptances(Steps(Start, ops).log, t) <= Saves(Steps(Start, ops).log, t)
  {
    PaidAlways(Start, ops, t);
  }

  /** An operation that saves a token saves a new one. */
  predicate SignsFresh(run: Run, op: Op) {
    var saver := SaverOf(run.accounts, op);
    saver.Some? ==> Saves(run.log, Sign(saver.value, run.accounts.tokens.now)) == 0
  }

  predicate FreshRun(run: Run, ops: seq<Op>)
    decreases |ops|
  {
    ops == [] || (SignsFresh(run, ops[0]) && FreshRun(Step(run, ops[0]), ops[1..]))
  }

  lemma SavedOnceKept(run: Run, op: Op, t: Token)
    requires Saves(run.log, t) <= 1 && SignsFresh(run, op)
    ensures Saves(Step(run, op).log, t) <= 1
  {
    var a := run.accounts;
    var saver := SaverOf(a, op);
    if saver.Some? {
      var saved := Saved(Sign(saver.value, a.tokens.now), a.tokens.now);
      if op.RefreshOp? {
        EntryEffects(run.log, Refreshed(op.token), t);
        EntryEffects(run.log + [Refreshed(op.token)], saved, t);
      } else {
        assert run.log + [] == run.log;
        EntryEffects(run.log, saved, t);
      }
    } else if op.LogoutOp? {
      EntryEffects(run.log, LoggedOut(op.userId), t);
    }
  }

  lemma {:induction false} SavedOnceAlways(run: Run, ops: seq<Op>, t: Token)
    requires Saves(run.log, t) <= 1 && FreshRun(run, ops)
    ensures Saves(Steps(run, ops).log, t) <= 1
    decreases |ops|
  {
    if ops != [] {
      SavedOnceKept(run, ops[0], t);
      SavedOnceAlways(Step(run, ops[0]), ops[1..], t);
    }
  }

  /** If signing always yields a new token, each token succeeds in a refresh at most once, over any run. */
  lemma EachTokenRefreshesOnce(ops: seq<Op>, t: Token)
    requires FreshRun(Start, ops)
    ensures Acceptances(Steps(Start, ops).log, t) <= 1
  {
    AcceptedNoMoreThanSaved(ops, t);
    SavedOnceAlways(Start, ops, t);
  }

  /* ---- What login accepts ---- */

  /** User `i` is the first one with the email. */
  predicate FirstWith(users: seq<User>, email: string, i: int) {
    0 <= i < |users| && users[i].email == email && forall k | 0 <= k < i :: users[k].email != email
  }

  lemma {:induction false} ByEmailFirst(users: seq<User>, email: string)
    ensures ByEmail(users, email).None? <==> forall i | 0 <= i < |users| :: users[i].email != email
    ensures forall i | FirstWith(users, email, i) :: ByEmail(users, email) == Some(users[i])
  {
    if users != [] {
      ByEmailFirst(users[1..], email);
      var rest := users[1..];
      forall i | FirstWith(users, email, i) ensures ByEmail(users, email) == Some(users[i]) {
        if i > 0 {
          forall k | 0 <= k < i - 1 ensures rest[k].email != email {
            assert rest[k] == users[k + 1];
          }
          assert FirstWith(rest, email, i - 1);
        }
      }
      if forall i | 0 <= i < |rest| :: rest[i].email != email {
        assert forall i | 0 < i < |users| :: users[i] == rest[i - 1];
      } else {
        var i :| 0 <= i < |rest| && rest[i].email == email;
        assert users[i + 1].email == email;
      }
    }
  }

  /** Which refusal is given, over any user list: unknown email or no secret, then disabled, then a wrong password. */
  lemma RefusalsInOrder(a: Accounts, email: string, password: string)
    ensures (forall i | 0 <= i < |a.users| :: a.users[i].email != email) ==> Credentials(a, email, password) == Err(InvalidCredentials)
    ensures forall i | FirstWith(a.users, email, i) ::
              Credentials(a, email, password)
                == if a.users[i].secret == None then Err(InvalidCredentials)
                   else if a.users[i].isActive == false then Err(AccountDisabled)
                   else if a.users[i].secret == Some(password) then Ok(a.users[i])
                   else Err(InvalidCredentials)
  {
    ByEmailFirst(a.users, email);
  }

  /** The operation registers the email with the password, and neither email nor id is taken. */
  predicate Registers(a: Accounts, op: Op, email: string, password: string) {
    && op.RegisterOp? && op.email == email && op.password == password
    && forall user | user in a.users :: user.email != email && user.id != op.id
  }

  lemma {:induction false} StepsAppend(run: Run, ops: seq<Op>, op: Op)
    ensures Steps(run, ops + [op]) == Step(Steps(run, ops), op)
    decreases |ops|
  {
    if ops == [] {
      assert ([] + [op])[1..] == [];
    } else {
      StepsAppend(Step(run, ops[0]), ops[1..], op);
      assert (ops + [op])[1..] == ops[1..] + [op];
    }
  }

  /** Every user is active, and no two share an email. */
  ghost predicate UsersOk(users: seq<User>) {
    && (forall i | 0 <= i < |users| :: users[i].isActive)
    && (forall i, j | 0 <= i < j < |users| :: users[i].email != users[j].email)
  }

  lemma {:induction false} ByEmailAppended(users: seq<User>, user: User, email: string)
    ensures ByEmail(users + [user], email)
         == if ByEmail(users, email).Some? then ByEmail(users, email) else if user.email == email then Some(user) else None
  {
    if users != [] {
      ByEmailAppended(users[1..], user, email);
      assert (users + [user])[1..] == users[1..] + [user];
    }
  }

  lemma UsersMove(run: Run, op: Op, email: string, password: string)
    requires UsersOk(run.accounts.users)
    ensures UsersOk(Step(run, op).accounts.users)
    ensures Credentials(Step(run, op).accounts, email, password).Ok?
       <==> Credentials(run.accounts, email, password).Ok? || Registers(run.accounts, op, email, password)
  {
    var a := run.accounts;
    if op.RegisterOp? {
      ByEmailFirst(a.users, op.email);
      ByIdIff(a.users, op.id);
      ByEmailFirst(a.users, email);
      var user := User(op.id, op.email, op.role, Some(op.password), true);
      ByEmailAppended(a.users, user, email);
      EmailIsUsers(a.users, email);
    }
  }

  lemma {:induction false} EmailIsUsers(users: seq<User>, email: string)
    ensures ByEmail(users, email).Some? ==> ByEmail(users, email).value in users
    ensures ByEmail(users, email).None? ==> forall user | user in users :: user.email != email
  {
    if users != [] {
      EmailIsUsers(users[1..], email);
      assert users == [users[0]] + users[1..];
    }
  }

  lemma {:induction false} LoginAlways(ops: seq<Op>, n: nat, email: string, password: string)
    requires n <= |ops|
    ensures UsersOk(Steps(Start, ops[..n]).accounts.users)
    ensures Credentials(Steps(Start, ops[..n]).accounts, email, password).Ok?
       <==> exists j | 0 <= j < n :: Registers(Steps(Start, ops[..j]).accounts, ops[j], email, password)
  {
    if n > 0 {
      LoginAlways(ops, n - 1, email, password);
      assert ops[..n] == ops[..n - 1] + [ops[n - 1]];
      StepsAppend(Start, ops[..n - 1], ops[n - 1]);
      UsersMove(Steps(Start, ops[..n - 1]), ops[n - 1], email, password);
    }
  }

  /**
   Over every run: a login is accepted, and saves a token, if and only if an earlier operation
   was an accepted registration of that email with exactly that password.
   */
  lemma LoginIff(ops: seq<Op>, email: string, password: string)
    ensures Step(Steps(Start, ops), LoginOp(email, password)).log != Steps(Start, ops).log
       <==> exists j | 0 <= j < |ops| ::
              && ops[j].RegisterOp? && ops[j].email == email && ops[j].password == password
              && forall user | user in Steps(Start, ops[..j]).accounts.users :: user.email != email && user.id != ops[j].id
  {
    LoginAlways(ops, |ops|, email, password);
    assert ops[..|ops|] == ops;
    var run := Steps(Start, ops);
    var saver := SaverOf(run.accounts, LoginOp(email, password));
    if saver.Some? {
      assert |Step(run, LoginOp(email, password)).log| == |run.log| + 1;
    }
    if j :| 0 <= j < |ops| && Registers(Steps(Start, ops[..j]).accounts, ops[j], email, password) {
      assert ops[j].RegisterOp? && ops[j].email == email;
    }
  }
}
