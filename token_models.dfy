/**
 * The plain records of src/models/token.py.
 * Instants are integer seconds; the caller supplies `now`, which stands for `datetime.now()`.
 */
module TokenModels {

  /** The status strings a login request can carry. */
  const PENDING: string := "pending"
  const APPROVED: string := "approved"
  const DENIED: string := "denied"
  const EXPIRED: string := "expired"

  /** A registration token: binds a user id to an expiry instant and a consumed flag. */
  datatype RegistrationToken = RegistrationToken(
    token: string,
    userId: int,
    createdAt: int,
    expiresAt: int,
    used: bool)
  {
    /** Usable at `now`: not consumed and strictly before the expiry instant. */
    predicate IsValid(now: int) {
      !used && now < expiresAt
    }

    /** Past its expiry at `now`; the expiry instant itself already counts as expired. */
    predicate IsExpired(now: int) {
      now >= expiresAt
    }
  }

  /** The dataclass constructor, with `used` left at its default. */
  function NewRegistrationToken(token: string, userId: int, createdAt: int, expiresAt: int): (t: RegistrationToken)
    ensures t.token == token && t.userId == userId
    ensures t.createdAt == createdAt && t.expiresAt == expiresAt
    ensures !t.used
    ensures forall now :: t.IsValid(now) <==> !t.IsExpired(now)
  {
    RegistrationToken(token, userId, createdAt, expiresAt, false)
  }

  /** How validity and expiry relate, at every instant. */
  lemma ValidityVersusExpiry(t: RegistrationToken, now: int)
    ensures t.used ==> !t.IsValid(now)
    ensures t.IsValid(now) ==> !t.IsExpired(now)
    ensures !t.used ==> (t.IsValid(now) <==> !t.IsExpired(now))
    ensures t.IsValid(now) <==> !t.used && now < t.expiresAt
    ensures t.IsExpired(now) <==> now >= t.expiresAt
  {
  }

  /** A login request as the dataclass describes it (the stored row also has a session token). */
  datatype LoginRequest = LoginRequest(id: string, userId: int, status: string, createdAt: int)
  {
    predicate IsPending() {
      status == PENDING
    }
  }

  /** Exactly the status "pending" is pending; every other status string is not. */
  lemma PendingStatuses(r: LoginRequest)
    ensures r.IsPending() <==> r.status == PENDING
    ensures r.status in {APPROVED, DENIED, EXPIRED} ==> !r.IsPending()
  {
  }
}
