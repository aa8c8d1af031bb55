/**
 * The password-reset session manager. A reset session is stored under the
 * digest of its own token (the same derivation as login sessions) and carries
 * a one-time code and a "code verified" flag. The one-time code generator is
 * not part of this model: its output is a parameter.
 */
module PasswordReset {
  import opened Common
  import opened Store
  import opened Users
  import opened Http

  const ResetLifetimeMs: int := 1000 * 60 * 10

  datatype PasswordResetSession = PasswordResetSession(
    id: Id, userId: Id, email: string, expiresAt: Millis, code: string, emailVerified: bool)

  datatype PasswordResetValidationResult =
    | ResetFound(session: PasswordResetSession, user: User)
    | NoReset

  function SessionOf(row: PasswordResetRow): PasswordResetSession
  {
    PasswordResetSession(row.id, row.userId, row.email, row.expiresAt, row.code, row.emailVerified)
  }

  /**
   * What validating a reset session id finds: the stored session and its user
   * while the session is live, with its expiry as stored (there is no renewal).
   */
  function ResetLookup(db: Database, id: Id, now: Millis): (r: PasswordResetValidationResult)
    reads db
    requires db.Valid()
    ensures r.ResetFound? <==> id in db.resetSessions && now < db.resetSessions[id].expiresAt
    ensures r.ResetFound? ==> r.session.id == id && r.session.expiresAt == db.resetSessions[id].expiresAt
    ensures r.ResetFound? ==> r.session == SessionOf(db.resetSessions[id])
                              && r.user == ViewOf(db.users[r.session.userId])
    ensures r.ResetFound? ==> r.session.userId in db.users && r.user.id == r.session.userId
  {
    if id in db.resetSessions && now < db.resetSessions[id].expiresAt then
      var row := db.resetSessions[id];
      ResetFound(SessionOf(row), ViewOf(db.users[row.userId]))
    else NoReset
  }

  /** The reset table after validating `id`: an expired row is gone, nothing else moves. */
  function ResetsAfterLookup(resets: map<Id, PasswordResetRow>, id: Id, now: Millis): (r: map<Id, PasswordResetRow>)
    ensures r.Keys <= resets.Keys
    ensures forall k :: k in r ==> r[k] == resets[k]
    ensures forall k :: k in resets && (k != id || now < resets[k].expiresAt) ==> k in r
    ensures id in resets && now >= resets[id].expiresAt ==> id !in r
  {
    if id in resets && now >= resets[id].expiresAt then resets - {id} else resets
  }

  /** What `validatePasswordResetSessionRequest` finds for the cookie in the jar. */
  function ResetRequestLookup(db: Database, cookies: Cookies, now: Millis, hashToken: string -> string)
    : (r: PasswordResetValidationResult)
    reads db, cookies
    requires db.Valid()
    ensures cookies.Get(ResetCookie).None? ==> r == NoReset
    ensures cookies.Get(ResetCookie).Some? ==> r == ResetLookup(db, hashToken(cookies.Get(ResetCookie).value), now)
  {
    match cookies.Get(ResetCookie)
    case None => NoReset
    case Some(token) => ResetLookup(db, hashToken(token), now)
  }

  /** The reset table after `validatePasswordResetSessionRequest`. */
  function ResetsAfterRequest(db: Database, cookies: Cookies, now: Millis, hashToken: string -> string)
    : (r: map<Id, PasswordResetRow>)
    reads db, cookies
    ensures cookies.Get(ResetCookie).None? ==> r == db.resetSessions
    ensures r.Keys <= db.resetSessions.Keys
    ensures forall k :: k in r ==> r[k] == db.resetSessions[k]
  {
    match cookies.Get(ResetCookie)
    case None => db.resetSessions
    case Some(token) => ResetsAfterLookup(db.resetSessions, hashToken(token), now)
  }

  /** The cookie jar after `validatePasswordResetSessionRequest`: a token that does not validate is cleared. */
  function JarAfterRequest(jar: map<string, Cookie>, found: bool): (r: map<string, Cookie>)
    ensures ResetCookie !in jar || found ==> r == jar
    ensures ResetCookie in jar && !found ==> r == jar[ResetCookie := Cleared]
  {
    if ResetCookie in jar && !found then jar[ResetCookie := Cleared] else jar
  }

  /**
   * `createPasswordResetSession`: stores a fresh unverified session with the
   * given code for 10 minutes. The user's earlier reset sessions stay. The
   * insert throws on a taken id or an unknown user.
   */
  method CreatePasswordResetSession(db: Database, token: string, userId: Id, email: string,
                                    code: string, now: Millis, hashToken: string -> string)
    returns (r: Try<PasswordResetSession>)
    requires db.Valid()
    modifies db`resetSessions
    ensures db.Valid()
    ensures r.Ok? <==> hashToken(token) !in old(db.resetSessions) && userId in db.users
    ensures r.Ok? ==> r.value == PasswordResetSession(hashToken(token), userId, email,
                                                      now + ResetLifetimeMs, code, false)
    ensures r.Ok? ==> db.resetSessions == old(db.resetSessions)[hashToken(token) :=
                        PasswordResetRow(hashToken(token), userId, email, code, now + ResetLifetimeMs, false)]
    ensures r.Throws? ==> db.resetSessions == old(db.resetSessions)
    ensures forall k :: k in old(db.resetSessions) ==>
              k in db.resetSessions && db.resetSessions[k] == old(db.resetSessions)[k]
  {
    var sessionId := hashToken(token);
    var expiresAt := now + ResetLifetimeMs;
    if sessionId in db.resetSessions || userId !in db.users {
      return Throws;
    }
    db.resetSessions := db.resetSessions[sessionId := PasswordResetRow(sessionId, userId, email, code, expiresAt, false)];
    r := Ok(PasswordResetSession(sessionId, userId, email, expiresAt, code, false));
  }

  /**
   * `validatePasswordResetSessionToken`: finds a live session and its user;
   * an expired session is deleted and nothing is found.
   */
  method ValidatePasswordResetSessionToken(db: Database, token: string, now: Millis, hashToken: string -> string)
    returns (r: PasswordResetValidationResult)
    requires db.Valid()
    modifies db`resetSessions
    ensures db.Valid()
    ensures r == old(ResetLookup(db, hashToken(token), now))
    ensures db.resetSessions == ResetsAfterLookup(old(db.resetSessions), hashToken(token), now)
  {
    var sessionId := hashToken(token);
    if sessionId !in db.resetSessions {
      return NoReset;
    }
    var row := db.resetSessions[sessionId];
    var session := SessionOf(row);
    var user := ViewOf(db.users[row.userId]);
    if now >= session.expiresAt {
      db.resetSessions := db.resetSessions - {session.id};
      return NoReset;
    }
    r := ResetFound(session, user);
  }

  /**
   * `setPasswordResetSessionAsEmailVerified`: sets the flag of that one
   * session; the user is not touched. The update throws for an unknown id.
   */
  method SetPasswordResetSessionAsEmailVerified(db: Database, sessionId: Id) returns (ok: bool)
    requires db.Valid()
    modifies db`resetSessions
    ensures db.Valid()
    ensures ok <==> sessionId in old(db.resetSessions)
    ensures ok ==> db.resetSessions == old(db.resetSessions)[sessionId :=
                                         old(db.resetSessions)[sessionId].(emailVerified := true)]
    ensures !ok ==> db.resetSessions == old(db.resetSessions)
  {
    if sessionId !in db.resetSessions {
      return false;
    }
    db.resetSessions := db.resetSessions[sessionId := db.resetSessions[sessionId].(emailVerified := true)];
    ok := true;
  }

  /** `invalidateUserPasswordResetSessions`: deletes all and only the user's reset sessions. */
  method InvalidateUserPasswordResetSessions(db: Database, userId: Id)
    requires db.Valid()
    modifies db`resetSessions
    ensures db.Valid()
    ensures db.resetSessions == ResetSessionsWithoutUser(old(db.resetSessions), userId)
    ensures forall id :: id in db.resetSessions ==> db.resetSessions[id].userId != userId
    ensures forall id :: id in old(db.resetSessions) && old(db.resetSessions)[id].userId != userId ==>
              id in db.resetSessions && db.resetSessions[id] == old(db.resetSessions)[id]
  {
    db.resetSessions := ResetSessionsWithoutUser(db.resetSessions, userId);
  }

  /**
   * `validatePasswordResetSessionRequest`: without a cookie, nothing is found
   * and nothing is read; otherwise the token is validated, and a token that
   * does not validate has its cookie cleared.
   */
  method ValidatePasswordResetSessionRequest(db: Database, cookies: Cookies, now: Millis,
                                             hashToken: string -> string)
    returns (r: PasswordResetValidationResult)
    requires db.Valid()
    modifies db`resetSessions, cookies
    ensures db.Valid()
    ensures r == old(ResetRequestLookup(db, cookies, now, hashToken))
    ensures db.resetSessions == old(ResetsAfterRequest(db, cookies, now, hashToken))
    ensures cookies.jar == JarAfterRequest(old(cookies.jar), r.ResetFound?)
    ensures old(cookies.Get(ResetCookie)).None? ==>
              r == NoReset && db.resetSessions == old(db.resetSessions) && cookies.jar == old(cookies.jar)
    ensures r.ResetFound? ==> db.resetSessions == old(db.resetSessions) && cookies.jar == old(cookies.jar)
    ensures r.ResetFound? ==> r.session.id in db.resetSessions && r.user.id in db.users
  {
    var token := cookies.Get(ResetCookie);
    if token.None? {
      return NoReset;
    }
    r := ValidatePasswordResetSessionToken(db, token.value, now, hashToken);
    if r.NoReset? {
      cookies.Delete(ResetCookie);
    }
  }

  /** `setPasswordResetSessionTokenCookie`. */
  method SetPasswordResetSessionTokenCookie(cookies: Cookies, token: string, expiresAt: Millis)
    modifies cookies
    ensures cookies.jar == old(cookies.jar)[ResetCookie := Cookie(token, Some(expiresAt), false)]
  {
    cookies.Set(ResetCookie, token, expiresAt);
  }

  /** `deletePasswordResetSessionTokenCookie`. */
  method DeletePasswordResetSessionTokenCookie(cookies: Cookies)
    modifies cookies
    ensures cookies.jar == old(cookies.jar)[ResetCookie := Cleared]
  {
    cookies.Delete(ResetCookie);
  }

  /**
   * A second reset session for the same user leaves the first one valid:
   * creation does not supersede earlier sessions.
   */
  method SecondResetKeepsFirst(db: Database, first: string, second: string, userId: Id, email: string,
                               code1: string, code2: string, now: Millis, hashToken: string -> string)
    returns (validated: PasswordResetValidationResult)
    requires db.Valid()
    requires userId in db.users
    requires hashToken(first) != hashToken(second)
    requires hashToken(first) !in db.resetSessions && hashToken(second) !in db.resetSessions
    modifies db`resetSessions
    ensures db.Valid()
    ensures validated.ResetFound? && validated.session.id == hashToken(first)
    ensures validated.session.code == code1 && !validated.session.emailVerified
  {
    var r1 := CreatePasswordResetSession(db, first, userId, email, code1, now, hashToken);
    var r2 := CreatePasswordResetSession(db, second, userId, email, code2, now, hashToken);
    validated := ValidatePasswordResetSessionToken(db, first, now, hashToken);
  }
}
