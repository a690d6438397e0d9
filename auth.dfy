/**
 * The login state machine of src/services/auth_service.py: starting a login
 * for a linked user, confirming it from Telegram, and reading its status.
 * `create_access_token` (JWT signing with a secret and the clock) is a
 * function of its claims, passed in as `sign`.
 */
module Auth {
  import opened Wrappers
  import opened TokenModels
  import opened UserModels
  import opened Storage

  const AUTHENTICATED: string := "authenticated"

  /** The answer of a started login: `{login_id, status}`. */
  datatype LoginStarted = LoginStarted(loginId: string, status: string)

  /** The answer of an approved login: `{status, session_token}`. */
  datatype SessionGrant = SessionGrant(status: string, sessionToken: string)

  /** The answer of a status read: `{status}` and nothing else. */
  datatype StatusView = StatusView(status: string)

  /** Session-token minting from the claims `sub` (the username) and `user_id`. */
  type Signer = (string, int) -> string

  /**
   * Python truthiness of the Telegram id: absent and 0 both count as "not
   * linked". The start check is therefore stricter than `is_linked`: a user
   * linked to Telegram id 0 cannot log in.
   */
  function TelegramIdTruthy(u: User): (b: bool)
    ensures b ==> u.IsLinked()
    ensures u.telegramId == Some(0) ==> u.IsLinked() && !b
    ensures u.IsLinked() && u.telegramId.value != 0 ==> b
  {
    u.telegramId.Some? && u.telegramId.value != 0
  }

  /**
   * `start_login`: nothing is created for an unknown username or an unlinked
   * user; otherwise exactly one pending request, without a session token, is
   * added for that user under the fresh id, and the answer says "pending".
   */
  function StartStep(users: UsersTable, reqs: RequestsTable, username: string, freshId: string, now: int)
    : (r: (RequestsTable, Option<LoginStarted>))
    requires UsersValid(users) && freshId !in reqs
    ensures r.1.None? ==> r.0 == reqs
    ensures r.1.Some? <==>
              exists k :: k in users.rows && users.rows[k].username == username && TelegramIdTruthy(users.rows[k])
    ensures r.1.Some? ==>
              && r.1.value == LoginStarted(freshId, PENDING)
              && r.0.Keys == reqs.Keys + {freshId}
              && (forall k :: k in reqs ==> r.0[k] == reqs[k])
              && r.0[freshId].AsRequest().IsPending() && r.0[freshId].sessionToken.None?
              && r.0[freshId].userId in users.rows && users.rows[r.0[freshId].userId].username == username
    ensures RequestsValid(reqs) ==> RequestsValid(r.0)
  {
    var user := SelectUser(users, Username(username));
    if user.None? then (reqs, None)
    else if !TelegramIdTruthy(user.value) then (reqs, None)
    else (InsertLoginRequest(reqs, freshId, user.value.id, now), Some(LoginStarted(freshId, PENDING)))
  }

  /**
   * `confirm_login`: an unknown or non-pending request is left alone and gets no
   * answer. A pending one is decided: approved, with a session token minted for
   * its owner, when the Telegram id resolves to the owning user; denied otherwise.
   * The stored session token is never written and no other request changes.
   */
  function ConfirmStep(users: UsersTable, reqs: RequestsTable, loginId: string, telegramId: int, sign: Signer)
    : (r: (RequestsTable, Option<SessionGrant>))
    requires UsersValid(users)
    ensures r.0.Keys == reqs.Keys
    ensures forall k :: k in reqs && k != loginId ==> r.0[k] == reqs[k]
    ensures (loginId !in reqs || reqs[loginId].status != PENDING) ==> r == (reqs, None)
    ensures (loginId in reqs && reqs[loginId].status == PENDING) ==>
              r.0[loginId] == reqs[loginId].(status := if r.1.Some? then APPROVED else DENIED)
    ensures r.1.Some? ==>
              && loginId in reqs && reqs[loginId].userId in users.rows
              && users.rows[reqs[loginId].userId].telegramId == Some(telegramId)
              && r.1.value == SessionGrant(AUTHENTICATED, sign(users.rows[reqs[loginId].userId].username, reqs[loginId].userId))
    ensures RequestsValid(reqs) ==> RequestsValid(r.0)
  {
    if loginId !in reqs then (reqs, None)
    else if reqs[loginId].status != PENDING then (reqs, None)
    else
      var user := SelectUser(users, TelegramId(telegramId));
      if user.None? || user.value.id != reqs[loginId].userId
      then (SetLoginStatus(reqs, loginId, DENIED, None), None)
      else
        assert Matches(user.value, TelegramId(telegramId));
        (SetLoginStatus(reqs, loginId, APPROVED, None),
         Some(SessionGrant(AUTHENTICATED, sign(user.value.username, user.value.id))))
  }

  /**
   * While each Telegram id belongs to at most one user, a pending request is
   * approved exactly when the confirming Telegram id is the one its owner linked.
   */
  lemma ConfirmApprovesIff(users: UsersTable, reqs: RequestsTable, loginId: string, telegramId: int, sign: Signer)
    requires UsersValid(users)
    requires TelegramIdsUnique(users)
    requires loginId in reqs && reqs[loginId].status == PENDING
    ensures ConfirmStep(users, reqs, loginId, telegramId, sign).1.Some? <==>
              (reqs[loginId].userId in users.rows && users.rows[reqs[loginId].userId].telegramId == Some(telegramId))
  {
    var owner := reqs[loginId].userId;
    if owner in users.rows && users.rows[owner].telegramId == Some(telegramId) {
      assert Matches(users.rows[owner], TelegramId(telegramId));
      var user := SelectUser(users, TelegramId(telegramId));
      assert Matches(users.rows[user.value.id], TelegramId(telegramId));
    }
  }

  /** A second confirmation of the same request, with any Telegram id, gets no answer and changes nothing. */
  lemma ConfirmTwice(users: UsersTable, reqs: RequestsTable, loginId: string, t1: int, t2: int, sign: Signer)
    requires UsersValid(users)
    ensures var after := ConfirmStep(users, reqs, loginId, t1, sign).0;
            ConfirmStep(users, after, loginId, t2, sign) == (after, None)
  {
  }

  /** `get_login_status`: the stored status of a known request; never a session token. */
  function StatusOf(reqs: RequestsTable, loginId: string): (r: Option<StatusView>)
    ensures r.Some? <==> loginId in reqs
    ensures r.Some? ==> r.value.status == reqs[loginId].status
  {
    if loginId in reqs then Some(StatusView(reqs[loginId].status)) else None
  }

  /** After an approval the status read shows "approved", and the stored session token is still the old one. */
  lemma ApprovedThenStatus(users: UsersTable, reqs: RequestsTable, loginId: string, telegramId: int, sign: Signer)
    requires UsersValid(users)
    requires ConfirmStep(users, reqs, loginId, telegramId, sign).1.Some?
    ensures StatusOf(ConfirmStep(users, reqs, loginId, telegramId, sign).0, loginId) == Some(StatusView(APPROVED))
    ensures ConfirmStep(users, reqs, loginId, telegramId, sign).0[loginId].sessionToken == reqs[loginId].sessionToken
  {
  }

  /** The authentication service over a shared store. */
  class AuthService {
    const db: SQLiteDatabase

    constructor (db: SQLiteDatabase)
      ensures this.db == db
    {
      this.db := db;
    }

    method StartLogin(username: string, freshId: string, now: int) returns (r: Option<LoginStarted>)
      requires db.Valid()
      requires freshId !in db.loginRequests
      modifies db
      ensures db.Valid()
      ensures (db.loginRequests, r) == StartStep(old(db.users), old(db.loginRequests), username, freshId, now)
      ensures db.users == old(db.users)
    {
      var user := db.GetUserByUsername(username);
      if user.None? {
        return None;
      }
      if !TelegramIdTruthy(user.value) {
        return None;
      }
      var loginId := db.CreateLoginRequest(user.value.id, freshId, now);
      r := Some(LoginStarted(loginId, PENDING));
    }

    method ConfirmLogin(loginId: string, telegramId: int, sign: Signer) returns (r: Option<SessionGrant>)
      requires db.Valid()
      modifies db
      ensures db.Valid()
      ensures (db.loginRequests, r) == ConfirmStep(old(db.users), old(db.loginRequests), loginId, telegramId, sign)
      ensures db.users == old(db.users)
    {
      var request := db.GetLoginRequest(loginId);
      if request.None? {
        return None;
      }
      if request.value.status != PENDING {
        return None;
      }
      var user := db.GetUserByTelegramId(telegramId);
      if user.None? || user.value.id != request.value.userId {
        var _ := db.UpdateLoginStatus(loginId, DENIED);
        return None;
      }
      var _ := db.UpdateLoginStatus(loginId, APPROVED);
      var accessToken := sign(user.value.username, user.value.id);
      r := Some(SessionGrant(AUTHENTICATED, accessToken));
    }

    /** The status of a known request, read from the store. */
    function GetLoginStatus(loginId: string): (r: Option<StatusView>)
      reads db
      requires db.Valid()
      ensures r.Some? <==> loginId in db.loginRequests
      ensures r.Some? ==> r.value.status == db.loginRequests[loginId].status
    {
      match db.GetLoginRequest(loginId)
      case None => None
      case Some(row) => Some(StatusView(row.status))
    }
  }
}
