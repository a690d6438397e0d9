/**
 * The registration-token engine of src/services/token_service.py: an in-memory
 * table from token string to record, issue, verify-and-consume, and the
 * Telegram deep link. `secrets.token_urlsafe` becomes a caller-supplied token
 * string and `datetime.now()` an integer instant in seconds.
 */
module TokenEngine {
  import opened Wrappers
  import opened TokenModels

  const REGISTRATION: string := "registration"
  const DEFAULT_EXPIRES_IN_MINUTES: int := 30
  const SECONDS_PER_MINUTE: int := 60

  const TELEGRAM_BASE: string := "https://t.me/"
  const START_PARAMETER: string := "?start="
  const LINK_SUFFIX: string := "&startattach=reply"

  /** The metadata stored under a token: its owner, its type, its expiry and the consumed flag. */
  datatype TokenRecord = TokenRecord(userId: int, kind: string, expiresAt: int, used: bool)

  type TokenTable = map<string, TokenRecord>

  /** Why a verification returns nothing, one reason per early return, in the order they are tested. */
  datatype Rejection = NotFound | WrongType | AlreadyUsed | Expired

  /** The table after issuing `token`: the dictionary assignment replaces any entry under that key. */
  function Issue(tokens: TokenTable, token: string, userId: int, expiresInMinutes: int, now: int): (r: TokenTable)
    ensures r.Keys == tokens.Keys + {token}
    ensures forall k :: k in tokens && k != token ==> r[k] == tokens[k]
    ensures r[token].userId == userId && r[token].kind == REGISTRATION && !r[token].used
    ensures r[token].expiresAt == now + expiresInMinutes * 60
  {
    tokens[token := TokenRecord(userId, REGISTRATION, now + expiresInMinutes * SECONDS_PER_MINUTE, false)]
  }

  /** The checks of a verification, in source order; expiry is strict, so `now == expiresAt` still passes. */
  function Check(tokens: TokenTable, token: string, now: int): (r: Result<int, Rejection>)
    ensures r.Success? <==>
              token in tokens && tokens[token].kind == REGISTRATION && !tokens[token].used && now <= tokens[token].expiresAt
    ensures r.Success? ==> r.value == tokens[token].userId
  {
    if token !in tokens then Failure(NotFound)
    else if tokens[token].kind != REGISTRATION then Failure(WrongType)
    else if tokens[token].used then Failure(AlreadyUsed)
    else if now > tokens[token].expiresAt then Failure(Expired)
    else Success(tokens[token].userId)
  }

  /**
   * A verification: its answer and the table afterwards. A failure answers
   * nothing and writes nothing; a success answers the stored user id and
   * rewrites only that record's `used` flag.
   */
  function Verify(tokens: TokenTable, token: string, now: int): (r: (TokenTable, Option<int>))
    ensures r.1.None? <==> Check(tokens, token, now).Failure?
    ensures r.1.None? ==> r.0 == tokens
    ensures r.1.Some? ==>
              && token in tokens && r.1.value == tokens[token].userId
              && r.0 == tokens[token := tokens[token].(used := true)]
  {
    match Check(tokens, token, now)
    case Success(userId) => (tokens[token := tokens[token].(used := true)], Some(userId))
    case Failure(_) => (tokens, None)
  }

  /**
   * A stored record viewed as the RegistrationToken dataclass, so that its
   * `is_valid` and `is_expired` can be compared with verification; the service
   * itself never builds one (the table keeps no creation time).
   */
  function AsRegistrationToken(token: string, r: TokenRecord, createdAt: int): RegistrationToken
  {
    RegistrationToken(token, r.userId, createdAt, r.expiresAt, r.used)
  }

  /**
   * A verification succeeds exactly when the record exists, has the registration
   * type and is either valid in the sense of `is_valid` or sits exactly at its
   * expiry instant; at that instant `is_expired` already holds.
   */
  lemma CheckVersusIsValid(tokens: TokenTable, token: string, now: int, createdAt: int)
    ensures Check(tokens, token, now).Success? <==>
      token in tokens && tokens[token].kind == REGISTRATION &&
      (AsRegistrationToken(token, tokens[token], createdAt).IsValid(now) ||
       (!tokens[token].used && now == tokens[token].expiresAt))
    ensures Check(tokens, token, now).Success? ==> Check(tokens, token, now).value == tokens[token].userId
  {
  }

  /** The precedence of the rejections: lookup, then type, then the flag, then the clock. */
  lemma RejectionOrder(tokens: TokenTable, token: string, now: int)
    ensures token !in tokens ==> Check(tokens, token, now) == Failure(NotFound)
    ensures token in tokens && tokens[token].kind != REGISTRATION ==> Check(tokens, token, now) == Failure(WrongType)
    ensures token in tokens && tokens[token].kind == REGISTRATION && tokens[token].used ==>
      Check(tokens, token, now) == Failure(AlreadyUsed)
    ensures (token in tokens && tokens[token].kind == REGISTRATION && !tokens[token].used &&
             now > tokens[token].expiresAt) ==> Check(tokens, token, now) == Failure(Expired)
  {
  }

  /** Issuing a new token value grows the table by one; re-issuing an existing one keeps its size. */
  lemma IssueTableSize(tokens: TokenTable, token: string, userId: int, expiresInMinutes: int, now: int)
    ensures token !in tokens ==> |Issue(tokens, token, userId, expiresInMinutes, now)| == |tokens| + 1
    ensures token in tokens ==> |Issue(tokens, token, userId, expiresInMinutes, now)| == |tokens|
  {
  }

  /**
   * Round trip: a token just issued verifies, at any instant from its issue up to
   * and including its expiry, to the user it was issued for; with a TTL of zero
   * minutes that still includes the instant of issue.
   */
  lemma IssueThenVerify(tokens: TokenTable, token: string, userId: int, expiresInMinutes: int, issuedAt: int, now: int)
    requires now <= issuedAt + expiresInMinutes * SECONDS_PER_MINUTE
    ensures Verify(Issue(tokens, token, userId, expiresInMinutes, issuedAt), token, now).1 == Some(userId)
  {
  }

  /** After the expiry instant, the freshly issued token is rejected as expired. */
  lemma IssueThenVerifyLate(tokens: TokenTable, token: string, userId: int, expiresInMinutes: int, issuedAt: int, now: int)
    requires now > issuedAt + expiresInMinutes * SECONDS_PER_MINUTE
    ensures Check(Issue(tokens, token, userId, expiresInMinutes, issuedAt), token, now) == Failure(Expired)
    ensures Verify(Issue(tokens, token, userId, expiresInMinutes, issuedAt), token, now).1 == None
  {
  }

  /** Once a verification has succeeded, every later one of that token fails as already used, and writes nothing. */
  lemma VerifyConsumes(tokens: TokenTable, token: string, now: int, later: int)
    requires Verify(tokens, token, now).1.Some?
    ensures Check(Verify(tokens, token, now).0, token, later) == Failure(AlreadyUsed)
    ensures Verify(Verify(tokens, token, now).0, token, later) == (Verify(tokens, token, now).0, None)
  {
  }

  /** One instant where the two notions disagree: `is_expired` holds, yet verification succeeds. */
  lemma VerifyAtExpiryInstant(token: string, userId: int, at: int)
    ensures AsRegistrationToken(token, TokenRecord(userId, REGISTRATION, at, false), at).IsExpired(at)
    ensures !AsRegistrationToken(token, TokenRecord(userId, REGISTRATION, at, false), at).IsValid(at)
    ensures Verify(map[token := TokenRecord(userId, REGISTRATION, at, false)], token, at).1 == Some(userId)
  {
  }

  /** A step against the token table: an issue with a given token value, or a verification. */
  datatype TokenOp =
    | Generate(token: string, userId: int, expiresInMinutes: int, now: int)
    | VerifyAt(token: string, now: int)

  /** Every issue in the run uses a token value not yet in the table, as a random 32-byte token does. */
  ghost predicate FreshIssues(tokens: TokenTable, ops: seq<TokenOp>)
    decreases |ops|
  {
    ops == [] ||
    match ops[0]
    case Generate(t, u, m, now) => t !in tokens && FreshIssues(Issue(tokens, t, u, m, now), ops[1..])
    case VerifyAt(t, now) => FreshIssues(Verify(tokens, t, now).0, ops[1..])
  }

  /** How many verifications of `token` in the run succeed. */
  function Successes(tokens: TokenTable, ops: seq<TokenOp>, token: string): nat
    decreases |ops|
  {
    if ops == [] then 0
    else match ops[0]
      case Generate(t, u, m, now) => Successes(Issue(tokens, t, u, m, now), ops[1..], token)
      case VerifyAt(t, now) =>
        var (after, answer) := Verify(tokens, t, now);
        (if t == token && answer.Some? then 1 else 0) + Successes(after, ops[1..], token)
  }

  /**
   * Exactly-once consumption: in any run whose issues use fresh token values, a
   * token verifies successfully at most once, and never again once it is used.
   */
  lemma {:induction false} AtMostOneSuccess(tokens: TokenTable, ops: seq<TokenOp>, token: string)
    requires FreshIssues(tokens, ops)
    ensures Successes(tokens, ops, token) <= 1
    ensures token in tokens && tokens[token].used ==> Successes(tokens, ops, token) == 0
    decreases |ops|
  {
    if ops != [] {
      match ops[0]
      case Generate(t, u, m, now) =>
        AtMostOneSuccess(Issue(tokens, t, u, m, now), ops[1..], token);
      case VerifyAt(t, now) =>
        AtMostOneSuccess(Verify(tokens, t, now).0, ops[1..], token);
    }
  }

  /** Without fresh token values the guarantee is gone: re-issuing a used token resets its flag. */
  lemma ReissueRevivesToken(token: string, userId: int, now: int)
    ensures Successes(map[], ReissueRun(token, userId, now), token) == 2
    ensures !FreshIssues(map[], ReissueRun(token, userId, now))
  {
    var ops := ReissueRun(token, userId, now);
    var t1 := Issue(map[], token, userId, 1, now);
    var t2 := Verify(t1, token, now).0;
    var t3 := Issue(t2, token, userId, 1, now);
    var t4 := Verify(t3, token, now).0;
    assert ops[1..][1..][1..][1..] == [];
    assert Successes(t4, [], token) == 0;
    assert Successes(t3, ops[1..][1..][1..], token) == 1;
    assert Successes(t2, ops[1..][1..], token) == 1;
    assert Successes(t1, ops[1..], token) == 2;
    assert token in t2;
    assert !FreshIssues(t2, ops[1..][1..]);
    assert !FreshIssues(t1, ops[1..]);
  }

  /** Issue a token, verify it, issue the same token value again, verify again. */
  function ReissueRun(token: string, userId: int, now: int): seq<TokenOp>
  {
    [Generate(token, userId, 1, now), VerifyAt(token, now), Generate(token, userId, 1, now), VerifyAt(token, now)]
  }

  /** The bot part of a deep link: everything up to the start parameter's value. */
  function LinkPrefix(bot: string): string
  {
    TELEGRAM_BASE + bot + START_PARAMETER
  }

  /** The start parameter's value carried by `link`, when it is a deep link to `bot`. */
  function StartPayload(link: string, bot: string): Option<string>
  {
    var p := LinkPrefix(bot);
    if |link| >= |p| + |LINK_SUFFIX| && link[..|p|] == p && link[|link| - |LINK_SUFFIX|..] == LINK_SUFFIX
    then Some(link[|p|..|link| - |LINK_SUFFIX|])
    else None
  }

  /**
   * The Telegram deep link for `token`; without a bot name the configured one is used.
   * The link opens that bot and hands the token back to it as the start parameter.
   */
  function CreateTelegramLink(token: string, botUsername: Option<string>, configuredBot: string): (link: string)
    ensures var bot := if botUsername.Some? then botUsername.value else configuredBot;
      |link| == |TELEGRAM_BASE| + |bot| + |START_PARAMETER| + |token| + |LINK_SUFFIX| &&
      link[..|TELEGRAM_BASE|] == TELEGRAM_BASE &&
      StartPayload(link, bot) == Some(token)
  {
    var bot := if botUsername.Some? then botUsername.value else configuredBot;
    var link := LinkPrefix(bot) + token + LINK_SUFFIX;
    assert link[..|LinkPrefix(bot)|] == LinkPrefix(bot);
    assert link[|LinkPrefix(bot)|..|link| - |LINK_SUFFIX|] == token;
    assert link[|link| - |LINK_SUFFIX|..] == LINK_SUFFIX;
    assert link[..|TELEGRAM_BASE|] == LinkPrefix(bot)[..|TELEGRAM_BASE|];
    link
  }

  /** Distinct tokens give distinct links for the same bot, so a link names exactly one token. */
  lemma LinkInjective(t1: string, t2: string, bot: Option<string>, configuredBot: string)
    requires CreateTelegramLink(t1, bot, configuredBot) == CreateTelegramLink(t2, bot, configuredBot)
    ensures t1 == t2
  {
    var b := if bot.Some? then bot.value else configuredBot;
    assert StartPayload(CreateTelegramLink(t1, bot, configuredBot), b) == Some(t1);
  }

  /** The token table held by the service; it starts empty. */
  class TokenService {
    var tokens: TokenTable

    constructor ()
      ensures tokens == map[]
    {
      tokens := map[];
    }

    /** Stores a fresh registration record under `token` and returns it. */
    method GenerateRegistrationToken(userId: int, token: string, now: int,
                                     expiresInMinutes: int := DEFAULT_EXPIRES_IN_MINUTES)
      returns (issued: string)
      modifies this
      ensures issued == token
      ensures tokens == Issue(old(tokens), token, userId, expiresInMinutes, now)
      ensures tokens[token] == TokenRecord(userId, REGISTRATION, now + expiresInMinutes * SECONDS_PER_MINUTE, false)
    {
      var expiresAt := now + expiresInMinutes * SECONDS_PER_MINUTE;
      tokens := tokens[token := TokenRecord(userId, REGISTRATION, expiresAt, false)];
      issued := token;
    }

    /** Checks the token and, when every check passes, marks it used and returns its user id. */
    method VerifyRegistrationToken(token: string, now: int) returns (userId: Option<int>)
      modifies this
      ensures (tokens, userId) == Verify(old(tokens), token, now)
      ensures userId.None? ==> tokens == old(tokens)
      ensures userId.Some? ==>
                (token in old(tokens) && userId.value == old(tokens)[token].userId &&
                 tokens == old(tokens)[token := old(tokens)[token].(used := true)])
    {
      if token !in tokens {
        return None;
      }
      var data := tokens[token];
      if data.kind != REGISTRATION {
        return None;
      }
      if data.used {
        return None;
      }
      if now > data.expiresAt {
        return None;
      }
      tokens := tokens[token := data.(used := true)];
      userId := Some(data.userId);
    }
  }
}
