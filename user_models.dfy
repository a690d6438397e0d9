/** The user record of src/models/user.py. */
module UserModels {
  import opened Wrappers

  /**
   * A user. `telegramId` is the linked Telegram account, `createdAt` and
   * `linkedAt` are instants in seconds; each is absent until set.
   */
  datatype User = User(
    id: int,
    username: string,
    telegramId: Option<int>,
    createdAt: Option<int>,
    linkedAt: Option<int>)
  {
    /** Linked as soon as any Telegram id is present, 0 included. */
    predicate IsLinked() {
      telegramId.Some?
    }
  }

  /** The dataclass constructor with every optional field left at its default. */
  function NewUser(id: int, username: string): (u: User)
    ensures u.id == id && u.username == username
    ensures !u.IsLinked()
    ensures u.createdAt.None? && u.linkedAt.None?
  {
    User(id, username, None, None, None)
  }

  /** `IsLinked` holds exactly when a Telegram id is stored, whichever id it is. */
  lemma LinkedIffTelegramId(u: User)
    ensures u.IsLinked() <==> u.telegramId != None
    ensures u.telegramId == Some(0) ==> u.IsLinked()
  {
  }
}
