/**
 * The login-session manager. A session row is stored under the lower-case hex
 * SHA-256 digest of its token; the model receives that derivation as
 * `hashToken`, one fixed function for every call.
 */
module Sessions {
  import opened Common
  import opened Store
  import opened Users
  import opened Base32

  const SessionLifetimeMs: int := 1000 * 60 * 60 * 24 * 30
  const RenewalThresholdMs: int := 1000 * 60 * 60 * 24 * 15

  datatype Session = Session(id: Id, userId: Id, expiresAt: Millis)

  /**
   * `SessionValidationResult`: a session and its user together, or neither.
   * The tagged form makes "both present or both absent" hold by construction.
   */
  datatype SessionValidationResult = SessionFound(session: Session, user: User) | NoSession

  /** The request-scoped `locals` the handlers read: the signed-in user and session, if any. */
  datatype Locals = Locals(user: Option<User>, session: Option<Session>)

  /**
   * `generateSessionToken`: 20 random bytes in lower-case unpadded base 32.
   * The trailing `toLowerCase()` changes nothing.
   */
  function GenerateSessionToken(bytes: RandomBytes): (token: string)
    ensures |token| == 32
    ensures forall i :: 0 <= i < |token| ==> token[i] in LowerAlphabet
    ensures token == EncodeBase32LowerCaseNoPadding(bytes)
  {
    LowerEncodingIsLowerCase(bytes);
    TwentyBytesAreThirtyTwoCharacters(bytes);
    ToLowerCase(EncodeBase32LowerCaseNoPadding(bytes))
  }

  /**
   * `validateSessionToken`: looks the session up by the digest of the token.
   * An expired row is deleted; a row in the last 15 days of its life is
   * renewed to a full 30 days from now; any other row is left as it is.
   */
  method ValidateSessionToken(db: Database, token: string, now: Millis, hashToken: string -> string)
    returns (r: SessionValidationResult)
    requires db.Valid()
    modifies db`sessions
    ensures db.Valid()
    ensures hashToken(token) !in old(db.sessions) ==> r == NoSession && db.sessions == old(db.sessions)
    ensures hashToken(token) in old(db.sessions) ==>
              var id := hashToken(token);
              var row := old(db.sessions)[id];
              && (now >= row.expiresAt ==> r == NoSession && db.sessions == old(db.sessions) - {id})
              && (now < row.expiresAt ==>
                    && r.SessionFound?
                    && r.session.id == id && r.session.userId == row.userId
                    && r.user == ViewOf(db.users[row.userId]))
              && (row.expiresAt - RenewalThresholdMs <= now < row.expiresAt ==>
                    && r.session.expiresAt == now + SessionLifetimeMs
                    && db.sessions == old(db.sessions)[id := row.(expiresAt := now + SessionLifetimeMs)])
              && (now < row.expiresAt - RenewalThresholdMs ==>
                    r.session.expiresAt == row.expiresAt && db.sessions == old(db.sessions))
  {
    var sessionId := hashToken(token);
    if sessionId !in db.sessions {
      return NoSession;
    }
    var row := db.sessions[sessionId];
    var session := Session(row.id, row.userId, row.expiresAt);
    var user := ViewOf(db.users[row.userId]);
    if now >= session.expiresAt {
      db.sessions := db.sessions - {session.id};
      return NoSession;
    }
    if now >= session.expiresAt - RenewalThresholdMs {
      session := session.(expiresAt := now + SessionLifetimeMs);
      db.sessions := db.sessions[session.id := row.(expiresAt := session.expiresAt)];
    }
    r := SessionFound(session, user);
  }

  /** `invalidateSession`: deletes one row; the delete throws when it is missing. */
  method InvalidateSession(db: Database, sessionId: Id) returns (ok: bool)
    requires db.Valid()
    modifies db`sessions
    ensures db.Valid()
    ensures ok <==> sessionId in old(db.sessions)
    ensures db.sessions == old(db.sessions) - {sessionId}
  {
    ok := sessionId in db.sessions;
    if ok {
      db.sessions := db.sessions - {sessionId};
    }
  }

  /** `invalidateUserSessions`: deletes every session of the user and no other. */
  method InvalidateUserSessions(db: Database, userId: Id)
    requires db.Valid()
    modifies db`sessions
    ensures db.Valid()
    ensures db.sessions == SessionsWithoutUser(old(db.sessions), userId)
    ensures forall id :: id in db.sessions ==> db.sessions[id].userId != userId
    ensures forall id :: id in old(db.sessions) && old(db.sessions)[id].userId != userId ==>
              id in db.sessions && db.sessions[id] == old(db.sessions)[id]
  {
    db.sessions := SessionsWithoutUser(db.sessions, userId);
  }

  /**
   * `createSession`: stores the digest of the token with a 30-day lifetime.
   * The insert throws on a taken id or an unknown user.
   */
  method CreateSession(db: Database, token: string, userId: Id, now: Millis, hashToken: string -> string)
    returns (r: Try<Session>)
    requires db.Valid()
    modifies db`sessions
    ensures db.Valid()
    ensures r.Ok? <==> hashToken(token) !in old(db.sessions) && userId in db.users
    ensures r.Ok? ==> r.value == Session(hashToken(token), userId, now + SessionLifetimeMs)
    ensures r.Ok? ==> db.sessions == old(db.sessions)[hashToken(token) :=
                                       SessionRow(hashToken(token), userId, now + SessionLifetimeMs)]
    ensures r.Throws? ==> db.sessions == old(db.sessions)
  {
    var sessionId := hashToken(token);
    var expiresAt := now + SessionLifetimeMs;
    if sessionId in db.sessions || userId !in db.users {
      return Throws;
    }
    db.sessions := db.sessions[sessionId := SessionRow(sessionId, userId, expiresAt)];
    r := Ok(Session(sessionId, userId, expiresAt));
  }

  /**
   * Both operations derive the id the same way, so a token validated before
   * its session expires finds the session that was created from it.
   */
  method CreatedSessionValidates(db: Database, token: string, userId: Id, createdAt: Millis,
                                 now: Millis, hashToken: string -> string)
    returns (created: Try<Session>, validated: SessionValidationResult)
    requires db.Valid()
    requires hashToken(token) !in db.sessions && userId in db.users
    requires createdAt <= now < createdAt + SessionLifetimeMs
    modifies db`sessions
    ensures db.Valid()
    ensures created.Ok? && validated.SessionFound?
    ensures validated.session.id == created.value.id && validated.session.userId == userId
    ensures validated.user == ViewOf(db.users[userId])
  {
    created := CreateSession(db, token, userId, createdAt, hashToken);
    validated := ValidateSessionToken(db, token, now, hashToken);
  }
}
