/**
 * The SQLite store of src/database/sqlite.py, reduced to the semantics behind
 * its SQL: a `users` table with an AUTOINCREMENT id (from 1), a UNIQUE username
 * and a non-unique `telegram_id`; and a `login_requests` table keyed by a text
 * id whose status defaults to "pending". `datetime.now()` and the column
 * default CURRENT_TIMESTAMP become the caller's `now`; `uuid.uuid4()` becomes
 * a fresh id the caller supplies.
 */
module Storage {
  import opened Wrappers
  import opened TokenModels
  import opened UserModels

  /** The users table: rows by id, and the id the next insert receives. */
  datatype UsersTable = UsersTable(rows: map<int, User>, nextId: int)

  /** A row of `login_requests`. */
  datatype LoginRow = LoginRow(id: string, userId: int, status: string, sessionToken: Option<string>, createdAt: int)
  {
    /**
     * The row viewed as the LoginRequest dataclass, so that `is_pending` can be
     * stated of it; the store itself returns plain rows and never builds one.
     */
    function AsRequest(): LoginRequest
    {
      LoginRequest(id, userId, status, createdAt)
    }
  }

  type RequestsTable = map<string, LoginRow>

  /** The error `INSERT INTO users` raises: the UNIQUE constraint on `username`. */
  datatype DbError = UniqueViolation

  /** A WHERE clause of the two user lookups. */
  datatype Column = Username(name: string) | TelegramId(telegramId: int)

  /** Whether a row satisfies the WHERE clause; a NULL `telegram_id` equals nothing. */
  predicate Matches(u: User, c: Column)
  {
    match c
    case Username(name) => u.username == name
    case TelegramId(t) => u.telegramId == Some(t)
  }

  /** The table's constraints: ids below the counter and stored in their rows, usernames unique. */
  ghost predicate UsersValid(t: UsersTable)
  {
    && 1 <= t.nextId
    && (forall k :: k in t.rows ==> 1 <= k < t.nextId && t.rows[k].id == k)
    && (forall a, b :: a in t.rows && b in t.rows && t.rows[a].username == t.rows[b].username ==> a == b)
  }

  /** Every login row is stored under its own id. */
  ghost predicate RequestsValid(reqs: RequestsTable)
  {
    forall k :: k in reqs ==> reqs[k].id == k
  }

  /** Each Telegram id belongs to at most one user: what the user service keeps, not a constraint of the table. */
  ghost predicate TelegramIdsUnique(t: UsersTable)
  {
    forall a, b :: (a in t.rows && b in t.rows && t.rows[a].telegramId.Some? &&
                    t.rows[a].telegramId == t.rows[b].telegramId) ==> a == b
  }

  ghost predicate UsernameTaken(t: UsersTable, name: string)
  {
    exists k :: k in t.rows && t.rows[k].username == name
  }

  /**
   * The first id in [lo, hi), in ascending order, whose row satisfies the clause:
   * the row `fetchone` returns from a scan in rowid order.
   */
  function FirstMatch(rows: map<int, User>, c: Column, lo: int, hi: int): (r: Option<int>)
    ensures r.Some? ==> lo <= r.value < hi && r.value in rows && Matches(rows[r.value], c)
    ensures r.Some? ==> forall j :: lo <= j < r.value && j in rows ==> !Matches(rows[j], c)
    ensures r.None? ==> forall j :: lo <= j < hi && j in rows ==> !Matches(rows[j], c)
    decreases hi - lo
  {
    if lo >= hi then None
    else if lo in rows && Matches(rows[lo], c) then Some(lo)
    else FirstMatch(rows, c, lo + 1, hi)
  }

  /**
   * `SELECT * FROM users WHERE … ` with `fetchone`: some row matches exactly when
   * a row is returned, and the row returned is the matching one with the smallest id.
   */
  function SelectUser(t: UsersTable, c: Column): (r: Option<User>)
    requires UsersValid(t)
    ensures r.Some? <==> exists k :: k in t.rows && Matches(t.rows[k], c)
    ensures r.Some? ==> r.value.id in t.rows && t.rows[r.value.id] == r.value && Matches(r.value, c)
    ensures r.Some? ==> forall k :: k in t.rows && Matches(t.rows[k], c) ==> r.value.id <= k
  {
    match FirstMatch(t.rows, c, 1, t.nextId)
    case Some(k) => Some(t.rows[k])
    case None => None
  }

  /** Usernames are unique, so a lookup by username finds the one row with that name. */
  lemma SelectByUsername(t: UsersTable, name: string, k: int)
    requires UsersValid(t)
    requires k in t.rows && t.rows[k].username == name
    ensures SelectUser(t, Username(name)) == Some(t.rows[k])
  {
  }

  /**
   * `INSERT INTO users (username)`: rejected by the UNIQUE constraint when the
   * name is taken; otherwise the row gets the next id, no Telegram id and the
   * insert instant as `created_at`, while the User handed back is built from
   * id and name alone.
   */
  function InsertUser(t: UsersTable, name: string, now: int): (r: (UsersTable, Result<User, DbError>))
    requires UsersValid(t)
    ensures UsersValid(r.0)
    ensures r.1.Failure? <==> UsernameTaken(t, name)
    ensures r.1.Failure? ==> r.0 == t
    ensures r.1.Success? ==>
              && r.1.value == NewUser(t.nextId, name)
              && t.nextId !in t.rows
              && r.0.rows == t.rows[t.nextId := User(t.nextId, name, None, Some(now), None)]
              && r.0.nextId == t.nextId + 1
              && SelectUser(r.0, Username(name)) == Some(r.0.rows[t.nextId])
  {
    match FirstMatch(t.rows, Username(name), 1, t.nextId)
    case Some(_) => (t, Failure(UniqueViolation))
    case None =>
      var t' := UsersTable(t.rows[t.nextId := User(t.nextId, name, None, Some(now), None)], t.nextId + 1);
      SelectByUsername(t', name, t.nextId);
      (t', Success(NewUser(t.nextId, name)))
  }

  /**
   * `UPDATE users SET telegram_id = ?, linked_at = ? WHERE id = ?`: only the row
   * with that id changes, and only those two columns; an unknown id changes nothing.
   */
  function SetTelegramId(t: UsersTable, userId: int, telegramId: int, now: int): (r: UsersTable)
    ensures UsersValid(t) ==> UsersValid(r)
    ensures r.nextId == t.nextId && r.rows.Keys == t.rows.Keys
    ensures userId !in t.rows ==> r == t
    ensures userId in t.rows ==>
              r.rows[userId] == t.rows[userId].(telegramId := Some(telegramId), linkedAt := Some(now))
    ensures forall k :: k in t.rows && k != userId ==> r.rows[k] == t.rows[k]
  {
    if userId in t.rows
    then UsersTable(t.rows[userId := t.rows[userId].(telegramId := Some(telegramId), linkedAt := Some(now))], t.nextId)
    else t
  }

  /**
   * After a link a lookup by that Telegram id finds a row carrying it: the linked
   * user itself when no row with a smaller id already has the same Telegram id.
   */
  lemma LinkThenSelect(t: UsersTable, userId: int, telegramId: int, now: int)
    requires UsersValid(t) && userId in t.rows
    ensures SelectUser(SetTelegramId(t, userId, telegramId, now), TelegramId(telegramId)).Some?
    ensures (forall k :: k in t.rows && k < userId ==> t.rows[k].telegramId != Some(telegramId)) ==>
              SelectUser(SetTelegramId(t, userId, telegramId, now), TelegramId(telegramId)).value.id == userId
  {
    var r := SetTelegramId(t, userId, telegramId, now);
    assert Matches(r.rows[userId], TelegramId(telegramId));
  }

  /** Nothing in the table stops two users from holding the same Telegram id. */
  lemma SharedTelegramIdAllowed(now: int)
    ensures var t0 := UsersTable(map[], 1);
            var t1 := InsertUser(t0, "a", now).0;
            var t2 := InsertUser(t1, "b", now).0;
            var t4 := SetTelegramId(SetTelegramId(t2, 1, 7, now), 2, 7, now);
            && UsersValid(t4)
            && t4.rows[1].telegramId == Some(7) && t4.rows[2].telegramId == Some(7)
            && SelectUser(t4, TelegramId(7)) == Some(t4.rows[1])
  {
    var t0 := UsersTable(map[], 1);
    var t1 := InsertUser(t0, "a", now).0;
    assert !UsernameTaken(t0, "a");
    assert t1.rows.Keys == {1};
    assert t1.rows[1].username == "a";
    assert !UsernameTaken(t1, "b") by {
      assert "a" != "b" by { assert "a"[0] != "b"[0]; }
    }
    var t2 := InsertUser(t1, "b", now).0;
    assert t2.rows.Keys == {1, 2};
    var t4 := SetTelegramId(SetTelegramId(t2, 1, 7, now), 2, 7, now);
    assert Matches(t4.rows[1], TelegramId(7));
  }

  /** `INSERT INTO login_requests (id, user_id)`: a new pending row with no session token. */
  function InsertLoginRequest(reqs: RequestsTable, id: string, userId: int, now: int): (r: RequestsTable)
    requires id !in reqs
    ensures RequestsValid(reqs) ==> RequestsValid(r)
    ensures r.Keys == reqs.Keys + {id}
    ensures r[id].userId == userId && r[id].AsRequest().IsPending() && r[id].sessionToken.None?
    ensures forall k :: k in reqs ==> r[k] == reqs[k]
  {
    reqs[id := LoginRow(id, userId, PENDING, None, now)]
  }

  /** Python truthiness of an optional string: present and non-empty. */
  function Truthy(s: Option<string>): (b: bool)
    ensures b ==> s.Some?
    ensures s == Some("") ==> !b
    ensures s.Some? && |s.value| > 0 ==> b
  {
    s.Some? && s.value != ""
  }

  /**
   * `UPDATE login_requests SET status = ? [, session_token = ?] WHERE id = ?`:
   * the status is overwritten whatever it was; the session token only when a
   * non-empty one is given; an unknown id changes nothing.
   */
  function SetLoginStatus(reqs: RequestsTable, id: string, status: string, sessionToken: Option<string>): (r: RequestsTable)
    ensures RequestsValid(reqs) ==> RequestsValid(r)
    ensures r.Keys == reqs.Keys
    ensures id !in reqs ==> r == reqs
    ensures id in reqs ==>
              && r[id].status == status
              && r[id].id == reqs[id].id && r[id].userId == reqs[id].userId && r[id].createdAt == reqs[id].createdAt
              && r[id].sessionToken == (if Truthy(sessionToken) then sessionToken else reqs[id].sessionToken)
    ensures forall k :: k in reqs && k != id ==> r[k] == reqs[k]
  {
    if id !in reqs then reqs
    else if Truthy(sessionToken) then reqs[id := reqs[id].(status := status, sessionToken := sessionToken)]
    else reqs[id := reqs[id].(status := status)]
  }

  /** The update does not look at the current status: even a decided request can be reset to pending. */
  lemma StatusUpdateUnchecked(reqs: RequestsTable, id: string)
    requires id in reqs && reqs[id].status == APPROVED
    ensures SetLoginStatus(reqs, id, PENDING, None)[id].AsRequest().IsPending()
    ensures SetLoginStatus(reqs, id, PENDING, None)[id].sessionToken == reqs[id].sessionToken
  {
  }

  /** The SQLite database, with its two tables as fields. */
  class SQLiteDatabase {
    var users: UsersTable
    var loginRequests: RequestsTable

    ghost predicate Valid()
      reads this
    {
      UsersValid(users) && RequestsValid(loginRequests)
    }

    /** Both tables, as `init_db` creates them: empty, with the id counter at 1. */
    constructor ()
      ensures Valid()
      ensures users == UsersTable(map[], 1) && loginRequests == map[]
    {
      users := UsersTable(map[], 1);
      loginRequests := map[];
    }

    method CreateUser(username: string, now: int) returns (r: Result<User, DbError>)
      requires Valid()
      modifies this
      ensures Valid()
      ensures (users, r) == InsertUser(old(users), username, now)
      ensures loginRequests == old(loginRequests)
    {
      var clash := FirstMatch(users.rows, Username(username), 1, users.nextId);
      if clash.Some? {
        return Failure(UniqueViolation);
      }
      var id := users.nextId;
      users := UsersTable(users.rows[id := User(id, username, None, Some(now), None)], id + 1);
      r := Success(NewUser(id, username));
    }

    /** The user with that username, if any. */
    function GetUserByUsername(username: string): (r: Option<User>)
      reads this
      requires Valid()
      ensures r.Some? <==> UsernameTaken(users, username)
      ensures r.Some? ==> r.value.id in users.rows && users.rows[r.value.id] == r.value && r.value.username == username
    {
      SelectUser(users, Username(username))
    }

    /** The user with the smallest id among those holding that Telegram id, if any. */
    function GetUserByTelegramId(telegramId: int): (r: Option<User>)
      reads this
      requires Valid()
      ensures r.Some? <==> exists k :: k in users.rows && users.rows[k].telegramId == Some(telegramId)
      ensures r.Some? ==> r.value.id in users.rows && users.rows[r.value.id] == r.value
      ensures r.Some? ==> r.value.telegramId == Some(telegramId)
      ensures r.Some? ==> forall k :: k in users.rows && users.rows[k].telegramId == Some(telegramId) ==> r.value.id <= k
    {
      var r := SelectUser(users, TelegramId(telegramId));
      assert r.Some? ==> Matches(r.value, TelegramId(telegramId));
      assert forall k :: k in users.rows ==> (Matches(users.rows[k], TelegramId(telegramId)) <==> users.rows[k].telegramId == Some(telegramId));
      r
    }

    /** Sets the Telegram id and link instant of that user; reports success whether or not the user exists. */
    method LinkTelegramId(userId: int, telegramId: int, now: int) returns (ok: bool)
      requires Valid()
      modifies this
      ensures Valid()
      ensures ok
      ensures users == SetTelegramId(old(users), userId, telegramId, now)
      ensures loginRequests == old(loginRequests)
    {
      if userId in users.rows {
        var u := users.rows[userId];
        users := users.(rows := users.rows[userId := u.(telegramId := Some(telegramId), linkedAt := Some(now))]);
      }
      ok := true;
    }

    /** Inserts a pending request for `userId` under the fresh id and returns that id. */
    method CreateLoginRequest(userId: int, freshId: string, now: int) returns (loginId: string)
      requires Valid()
      requires freshId !in loginRequests
      modifies this
      ensures Valid()
      ensures loginId == freshId
      ensures loginRequests == InsertLoginRequest(old(loginRequests), freshId, userId, now)
      ensures users == old(users)
    {
      loginRequests := loginRequests[freshId := LoginRow(freshId, userId, PENDING, None, now)];
      loginId := freshId;
    }

    /** The stored row with that id, if any. */
    function GetLoginRequest(loginId: string): (r: Option<LoginRow>)
      reads this
      requires Valid()
      ensures r.Some? <==> loginId in loginRequests
      ensures r.Some? ==> r.value == loginRequests[loginId] && r.value.id == loginId
    {
      if loginId in loginRequests then Some(loginRequests[loginId]) else None
    }

    /** Overwrites the status (and a non-empty session token); reports success even for an unknown id. */
    method UpdateLoginStatus(loginId: string, status: string, sessionToken: Option<string> := None) returns (ok: bool)
      requires Valid()
      modifies this
      ensures Valid()
      ensures ok
      ensures loginRequests == SetLoginStatus(old(loginRequests), loginId, status, sessionToken)
      ensures users == old(users)
    {
      if loginId in loginRequests {
        var row := loginRequests[loginId];
        if sessionToken.Some? && sessionToken.value != "" {
          loginRequests := loginRequests[loginId := row.(status := status, sessionToken := sessionToken)];
        } else {
          loginRequests := loginRequests[loginId := row.(status := status)];
        }
      }
      ok := true;
    }
  }
}
