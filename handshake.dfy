/**
 * The whole login handshake as a sequence of service calls over one store:
 * registrations and links through the user service, login starts and
 * confirmations through the authentication service, each call one atomic step.
 * The lemmas are about every such run.
 */
module Handshake {
  import opened Wrappers
  import opened TokenModels
  import opened UserModels
  import opened TokenEngine
  import opened Storage
  import opened Accounts
  import opened Auth

  /** The two tables of the store. */
  datatype System = System(users: UsersTable, requests: RequestsTable)

  /** One service call that writes. */
  datatype Call =
    | RegisterCall(username: string, now: int)
    | LinkCall(userId: int, telegramId: int, now: int)
    | StartCall(username: string, freshId: string, now: int)
    | ConfirmCall(loginId: string, telegramId: int)

  /** Statuses the services ever write. */
  predicate KnownStatus(s: string)
  {
    s == PENDING || s == APPROVED || s == DENIED
  }

  /**
   * What every run keeps: the table constraints, one user per Telegram id, only
   * the three written statuses, and no stored session token anywhere.
   */
  ghost predicate Inv(s: System)
  {
    && UsersValid(s.users) && RequestsValid(s.requests) && TelegramIdsUnique(s.users)
    && (forall k :: k in s.requests ==> KnownStatus(s.requests[k].status) && s.requests[k].sessionToken.None?)
  }

  /** A login start needs an id not yet used, as a random UUID is. */
  predicate Enabled(s: System, c: Call)
  {
    c.StartCall? ==> c.freshId !in s.requests
  }

  /** The store after one call. */
  function Step(s: System, c: Call, sign: Signer): (r: System)
    requires Inv(s) && Enabled(s, c)
    ensures Inv(r)
  {
    match c
    case RegisterCall(name, now) => System(Register(s.users, name, now).0, s.requests)
    case LinkCall(u, t, now) =>
      LinkKeepsTelegramIdsUnique(s.users, u, t, now);
      System(Link(s.users, u, t, now).0, s.requests)
    case StartCall(name, id, now) => System(s.users, StartStep(s.users, s.requests, name, id, now).0)
    case ConfirmCall(id, t) => System(s.users, ConfirmStep(s.users, s.requests, id, t, sign).0)
  }

  /** Whether the call is a confirmation of `loginId` that hands out a session token. */
  function Grants(s: System, c: Call, sign: Signer, loginId: string): bool
    requires Inv(s)
  {
    c.ConfirmCall? && c.loginId == loginId && ConfirmStep(s.users, s.requests, c.loginId, c.telegramId, sign).1.Some?
  }

  /** Every login start in the run uses a fresh id. */
  ghost predicate Runnable(s: System, calls: seq<Call>, sign: Signer)
    requires Inv(s)
    decreases |calls|
  {
    calls == [] || (Enabled(s, calls[0]) && Runnable(Step(s, calls[0], sign), calls[1..], sign))
  }

  /** The store after the whole run; it satisfies the invariant again. */
  function Run(s: System, calls: seq<Call>, sign: Signer): (r: System)
    requires Inv(s) && Runnable(s, calls, sign)
    ensures Inv(r)
    decreases |calls|
  {
    if calls == [] then s else Run(Step(s, calls[0], sign), calls[1..], sign)
  }

  /** How many calls of the run hand out a session token for `loginId`. */
  function Approvals(s: System, calls: seq<Call>, sign: Signer, loginId: string): nat
    requires Inv(s) && Runnable(s, calls, sign)
    decreases |calls|
  {
    if calls == [] then 0
    else (if Grants(s, calls[0], sign, loginId) then 1 else 0) +
         Approvals(Step(s, calls[0], sign), calls[1..], sign, loginId)
  }

  /** One call: a request never disappears, and a decided one is never touched. */
  lemma StepKeepsDecided(s: System, c: Call, sign: Signer, loginId: string)
    requires Inv(s) && Enabled(s, c)
    requires loginId in s.requests
    ensures loginId in Step(s, c, sign).requests
    ensures s.requests[loginId].status != PENDING ==> Step(s, c, sign).requests[loginId] == s.requests[loginId]
  {
  }

  /**
   * Status moves one way: every request present before a run is still there
   * after it, a decided one exactly as it was, and one pending afterwards was
   * pending before.
   */
  lemma {:induction false} DecidedRequestsFrozen(s: System, calls: seq<Call>, sign: Signer, loginId: string)
    requires Inv(s) && Runnable(s, calls, sign)
    requires loginId in s.requests
    ensures loginId in Run(s, calls, sign).requests
    ensures s.requests[loginId].status != PENDING ==> Run(s, calls, sign).requests[loginId] == s.requests[loginId]
    ensures Run(s, calls, sign).requests[loginId].status == PENDING ==> s.requests[loginId].status == PENDING
    decreases |calls|
  {
    if calls != [] {
      var s' := Step(s, calls[0], sign);
      StepKeepsDecided(s, calls[0], sign, loginId);
      DecidedRequestsFrozen(s', calls[1..], sign, loginId);
    }
  }

  /**
   * A login request hands out a session token at most once in any run, and
   * never once it has been decided.
   */
  lemma {:induction false} AtMostOneApproval(s: System, calls: seq<Call>, sign: Signer, loginId: string)
    requires Inv(s) && Runnable(s, calls, sign)
    ensures Approvals(s, calls, sign, loginId) <= 1
    ensures loginId in s.requests && s.requests[loginId].status != PENDING ==> Approvals(s, calls, sign, loginId) == 0
    decreases |calls|
  {
    if calls != [] {
      var c := calls[0];
      var s' := Step(s, c, sign);
      AtMostOneApproval(s', calls[1..], sign, loginId);
      if loginId in s.requests {
        StepKeepsDecided(s, c, sign, loginId);
      }
      if Grants(s, c, sign, loginId) {
        assert s'.requests[loginId].status == APPROVED;
      }
    }
  }

  /** A status read in any reachable store never shows a session token, and shows one of the written statuses. */
  lemma StatusReadsCarryNoToken(s: System, calls: seq<Call>, sign: Signer, loginId: string)
    requires Inv(s) && Runnable(s, calls, sign)
    ensures var r := Run(s, calls, sign);
            StatusOf(r.requests, loginId).Some? ==>
              KnownStatus(StatusOf(r.requests, loginId).value.status) && r.requests[loginId].sessionToken.None?
  {
  }

  /** A user who has only just registered has no Telegram id, so a login start for that name creates nothing. */
  lemma StartRefusedAfterRegister(s: System, username: string, now: int, freshId: string, later: int)
    requires Inv(s) && !UsernameTaken(s.users, username) && freshId !in s.requests
    ensures var users := Register(s.users, username, now).0;
            StartStep(users, s.requests, username, freshId, later) == (s.requests, None)
  {
  }

  /** A registration token verifies once, for its user, and is refused when replayed. */
  method RegistrationTokenScenario()
  {
    var tokens := new TokenService();
    var token := tokens.GenerateRegistrationToken(1, "t0k3n", 0);
    var owner := tokens.VerifyRegistrationToken(token, 60);
    assert owner == Some(1);
    var replay := tokens.VerifyRegistrationToken(token, 61);
    assert replay.None?;
  }

  /**
   * Registers "alice" through the user service and links her to Telegram id 111
   * in a fresh store; a second registration of the name is refused, so the store
   * holds exactly one user.
   */
  method RegisteredAlice() returns (db: SQLiteDatabase)
    ensures fresh(db) && db.Valid()
    ensures TelegramIdsUnique(db.users)
    ensures db.loginRequests == map[]
    ensures db.users.rows.Keys == {1} && db.users.rows[1].username == "alice"
    ensures db.users.rows[1].telegramId == Some(111)
  {
    db := new SQLiteDatabase();
    var users := new UserService(db);
    var alice := users.CreateUser("alice", 0);
    assert alice.Some? && alice.value.id == 1;
    assert db.users.rows.Keys == {1};
    var again := users.CreateUser("alice", 1);
    assert again.None?;
    var linked := users.LinkTelegram(1, 111, 60);
    assert linked;
  }

  /** A login confirmed from the linked Telegram id is approved once; the status read then shows "approved". */
  method ConfirmedLoginScenario(sign: Signer)
  {
    var db := RegisteredAlice();
    var auth := new AuthService(db);
    var started := auth.StartLogin("alice", "req-1", 100);
    assert started == Some(LoginStarted("req-1", PENDING));
    var confirmed := auth.ConfirmLogin("req-1", 111, sign);
    assert confirmed == Some(SessionGrant(AUTHENTICATED, sign("alice", 1)));
    assert auth.GetLoginStatus("req-1") == Some(StatusView(APPROVED));
    var twice := auth.ConfirmLogin("req-1", 111, sign);
    assert twice.None?;
  }

  /** A login confirmed from another Telegram id is denied and gets no session token. */
  method WrongTelegramIdScenario(sign: Signer)
  {
    var db := RegisteredAlice();
    var auth := new AuthService(db);
    var started := auth.StartLogin("alice", "req-2", 200);
    assert started.Some?;
    var wrong := auth.ConfirmLogin("req-2", 999, sign);
    assert wrong.None?;
    assert auth.GetLoginStatus("req-2") == Some(StatusView(DENIED));
  }
}
