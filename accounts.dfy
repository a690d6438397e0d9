/**
 * The user service of src/services/user_service.py: registration and Telegram
 * linking with their checks done before the write, and two read-only lookups.
 * Each check-then-write sequence is one atomic step.
 */
module Accounts {
  import opened Wrappers
  import opened UserModels
  import opened Storage

  /**
   * `create_user`: a taken username yields no user and no write; otherwise the
   * store inserts the user, who comes back unlinked under a new id.
   */
  function Register(t: UsersTable, username: string, now: int): (r: (UsersTable, Option<User>))
    requires UsersValid(t)
    ensures UsersValid(r.0)
    ensures r.1.None? <==> UsernameTaken(t, username)
    ensures r.1.None? ==> r.0 == t
    ensures r.1.Some? ==>
              && r.1.value.username == username && !r.1.value.IsLinked()
              && r.1.value.id == t.nextId && r.1.value.id !in t.rows && r.0.nextId == t.nextId + 1
              && r.0.rows.Keys == t.rows.Keys + {r.1.value.id}
              && r.0.rows[t.nextId] == User(t.nextId, username, None, Some(now), None)
              && (forall k :: k in t.rows ==> r.0.rows[k] == t.rows[k])
              && SelectUser(r.0, Username(username)).Some?
    ensures TelegramIdsUnique(t) ==> TelegramIdsUnique(r.0)
  {
    if SelectUser(t, Username(username)).Some? then (t, None)
    else
      match InsertUser(t, username, now)
      case (t', Success(u)) => (t', Some(u))
      case (_, Failure(_)) => (t, None)
  }

  /** Registering a name twice: the second attempt yields nothing and changes nothing. */
  lemma RegisterTwice(t: UsersTable, username: string, now: int, later: int)
    requires UsersValid(t)
    ensures var t1 := Register(t, username, now).0;
            Register(t1, username, later) == (t1, None)
  {
    var t1 := Register(t, username, now).0;
    if !UsernameTaken(t, username) {
      assert t1.rows[t.nextId].username == username;
    }
  }

  /** Two different free names register independently, under different ids. */
  lemma RegisterDistinct(t: UsersTable, a: string, b: string, now: int)
    requires UsersValid(t) && a != b
    requires !UsernameTaken(t, a) && !UsernameTaken(t, b)
    ensures Register(t, a, now).1.Some?
    ensures Register(Register(t, a, now).0, b, now).1.Some?
    ensures Register(t, a, now).1.value.id != Register(Register(t, a, now).0, b, now).1.value.id
  {
    var t1 := Register(t, a, now).0;
    assert t1.rows.Keys == t.rows.Keys + {t.nextId};
  }

  /**
   * `link_telegram`: refused, with no write, when the Telegram id is found on a
   * different user; otherwise the store links it and the call succeeds.
   */
  function Link(t: UsersTable, userId: int, telegramId: int, now: int): (r: (UsersTable, bool))
    requires UsersValid(t)
    ensures UsersValid(r.0)
    ensures !r.1 ==> r.0 == t
    ensures r.1 ==> r.0 == SetTelegramId(t, userId, telegramId, now)
  {
    var existing := SelectUser(t, TelegramId(telegramId));
    if existing.Some? && existing.value.id != userId then (t, false)
    else (SetTelegramId(t, userId, telegramId, now), true)
  }

  /**
   * While Telegram ids are unique, linking is refused exactly when another user
   * already holds the id.
   */
  lemma LinkRefusedIff(t: UsersTable, userId: int, telegramId: int, now: int)
    requires UsersValid(t) && TelegramIdsUnique(t)
    ensures !Link(t, userId, telegramId, now).1 <==>
              exists k :: k in t.rows && k != userId && t.rows[k].telegramId == Some(telegramId)
  {
    var existing := SelectUser(t, TelegramId(telegramId));
    if existing.Some? {
      assert Matches(t.rows[existing.value.id], TelegramId(telegramId));
    } else {
      forall k | k in t.rows && t.rows[k].telegramId == Some(telegramId)
        ensures false
      {
        assert Matches(t.rows[k], TelegramId(telegramId));
      }
    }
  }

  /** Linking keeps every Telegram id with at most one user. */
  lemma LinkKeepsTelegramIdsUnique(t: UsersTable, userId: int, telegramId: int, now: int)
    requires UsersValid(t) && TelegramIdsUnique(t)
    ensures TelegramIdsUnique(Link(t, userId, telegramId, now).0)
  {
    var (r, ok) := Link(t, userId, telegramId, now);
    if ok && userId in t.rows {
      forall k | k in t.rows && k != userId
        ensures t.rows[k].telegramId != Some(telegramId)
      {
        LinkRefusedIff(t, userId, telegramId, now);
      }
      forall a, b | a in r.rows && b in r.rows && r.rows[a].telegramId.Some? && r.rows[a].telegramId == r.rows[b].telegramId
        ensures a == b
      {
        if a != userId && b != userId {
          assert t.rows[a].telegramId == t.rows[b].telegramId;
        }
      }
    }
  }

  /**
   * Re-linking a user to the Telegram id it already holds succeeds and changes
   * only the row's `linked_at`, which the store rewrites.
   */
  lemma RelinkSamePair(t: UsersTable, userId: int, telegramId: int, now: int)
    requires UsersValid(t) && TelegramIdsUnique(t)
    requires userId in t.rows && t.rows[userId].telegramId == Some(telegramId)
    ensures Link(t, userId, telegramId, now).1
    ensures Link(t, userId, telegramId, now).0.rows == t.rows[userId := t.rows[userId].(linkedAt := Some(now))]
  {
    LinkRefusedIff(t, userId, telegramId, now);
    var r := Link(t, userId, telegramId, now).0;
    assert r.rows[userId] == t.rows[userId].(linkedAt := Some(now));
  }

  /** The user service over a shared store. */
  class UserService {
    const db: SQLiteDatabase

    constructor (db: SQLiteDatabase)
      ensures this.db == db
    {
      this.db := db;
    }

    method CreateUser(username: string, now: int) returns (user: Option<User>)
      requires db.Valid()
      modifies db
      ensures db.Valid()
      ensures (db.users, user) == Register(old(db.users), username, now)
      ensures db.loginRequests == old(db.loginRequests)
    {
      var existing := db.GetUserByUsername(username);
      if existing.Some? {
        return None;
      }
      var created := db.CreateUser(username, now);
      match created
      case Success(u) => user := Some(u);
      case Failure(_) => user := None;
    }

    /** The user with that username, read from the store. */
    function GetUser(username: string): (r: Option<User>)
      reads db
      requires db.Valid()
      ensures r.Some? <==> UsernameTaken(db.users, username)
      ensures r.Some? ==> r.value.username == username && r.value.id in db.users.rows && db.users.rows[r.value.id] == r.value
    {
      db.GetUserByUsername(username)
    }

    /** The user holding that Telegram id (the one with the smallest id if several do), read from the store. */
    function GetUserByTelegram(telegramId: int): (r: Option<User>)
      reads db
      requires db.Valid()
      ensures r.Some? <==> exists k :: k in db.users.rows && db.users.rows[k].telegramId == Some(telegramId)
      ensures r.Some? ==> r.value.telegramId == Some(telegramId) && r.value.id in db.users.rows && db.users.rows[r.value.id] == r.value
    {
      db.GetUserByTelegramId(telegramId)
    }

    method LinkTelegram(userId: int, telegramId: int, now: int) returns (ok: bool)
      requires db.Valid()
      modifies db
      ensures db.Valid()
      ensures (db.users, ok) == Link(old(db.users), userId, telegramId, now)
      ensures db.loginRequests == old(db.loginRequests)
      ensures TelegramIdsUnique(old(db.users)) ==> TelegramIdsUnique(db.users)
    {
      ghost var before := db.users;
      if TelegramIdsUnique(before) {
        LinkKeepsTelegramIdsUnique(before, userId, telegramId, now);
      }
      var existing := db.GetUserByTelegramId(telegramId);
      if existing.Some? && existing.value.id != userId {
        return false;
      }
      ok := db.LinkTelegramId(userId, telegramId, now);
    }
  }
}
