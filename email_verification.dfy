/**
 * The email-verification request manager: at most one request per user,
 * identified by a random base-32 id that the client keeps in a cookie. The
 * one-time code generator is not part of this model: its output is a parameter.
 */
module EmailVerification {
  import opened Common
  import opened Store
  import opened Users
  import opened Http
  import opened Base32
  import opened RateLimit

  const RequestLifetimeMs: int := 1000 * 60 * 10

  /** The `sendVerificationEmailBucket` is built with these two numbers. */
  const SendVerificationEmailMax: nat := 3
  const SendVerificationEmailWindowSeconds: nat := 60 * 10

  /** The id of a new request: `encodeBase32(bytes).toLowerCase()` of 20 random bytes. */
  function RequestIdOf(bytes: RandomBytes): (id: Id)
    ensures |id| == 32
    ensures forall i :: 0 <= i < |id| ==> id[i] in LowerAlphabet
    ensures id == EncodeBase32LowerCaseNoPadding(bytes)
  {
    LowercasedEncodingIsUnpadded(bytes);
    TwentyBytesAreThirtyTwoCharacters(bytes);
    ToLowerCase(EncodeBase32(bytes))
  }

  /** `sendVerificationEmailBucket`: 3 sends per user per 10 minutes. */
  method NewSendVerificationEmailBucket(allows: (Memory, string, nat, Millis) -> bool,
                                        takes: (Memory, string, nat, Millis) -> (bool, Memory), initial: Memory)
    returns (bucket: ExpiringTokenBucket)
    ensures fresh(bucket)
    ensures bucket.max == SendVerificationEmailMax == 3
    ensures bucket.expiresInSeconds == SendVerificationEmailWindowSeconds == 600
    ensures bucket.allows == allows && bucket.takes == takes && bucket.memory == initial
  {
    bucket := new ExpiringTokenBucket(SendVerificationEmailMax, SendVerificationEmailWindowSeconds, allows, takes, initial);
  }

  /**
   * What `createEmailVerificationRequest` inserts into a table from which the
   * user's requests have just been deleted: the row, or the thrown error of a
   * taken id or an unknown user.
   */
  function CreatedRequest(requests: map<Id, VerificationRequestRow>, users: map<Id, UserRow>, userId: Id,
                          email: string, idBytes: RandomBytes, code: string, now: Millis)
    : (r: Try<VerificationRequestRow>)
    ensures r.Ok? <==> RequestIdOf(idBytes) !in RequestsWithoutUser(requests, userId) && userId in users
    ensures r.Ok? ==> && r.value.id == RequestIdOf(idBytes) && |r.value.id| == 32
                      && r.value.userId == userId && r.value.email == email && r.value.code == code
                      && r.value.expiresAt == now + RequestLifetimeMs
  {
    var id := RequestIdOf(idBytes);
    if id in RequestsWithoutUser(requests, userId) || userId !in users then Throws
    else Ok(VerificationRequestRow(id, userId, code, email, now + RequestLifetimeMs))
  }

  /**
   * The request table after `createEmailVerificationRequest`: the user's
   * earlier requests are gone even when the insert throws, and the user has
   * at most one request, the new one.
   */
  function RequestsAfterCreate(requests: map<Id, VerificationRequestRow>, created: Try<VerificationRequestRow>,
                               userId: Id): (r: map<Id, VerificationRequestRow>)
    requires created.Ok? ==> created.value.userId == userId
    ensures forall id :: id in r && r[id].userId == userId ==> created.Ok? && id == created.value.id
    ensures created.Ok? ==> created.value.id in r && r[created.value.id] == created.value
    ensures forall id :: id in requests && requests[id].userId != userId && (created.Ok? ==> id != created.value.id) ==>
              id in r && r[id] == requests[id]
    ensures forall id :: id in r ==> id in requests || (created.Ok? && id == created.value.id)
  {
    var kept := RequestsWithoutUser(requests, userId);
    if created.Ok? then kept[created.value.id := created.value] else kept
  }

  /**
   * `getUserEmailVerificationRequest`: the request with that id, only when it
   * also belongs to that user.
   */
  function GetUserEmailVerificationRequest(db: Database, userId: Id, id: Id): (r: Option<VerificationRequestRow>)
    reads db
    ensures r.Some? <==> id in db.verificationRequests && db.verificationRequests[id].userId == userId
    ensures r.Some? ==> r.value == db.verificationRequests[id]
  {
    if id in db.verificationRequests && db.verificationRequests[id].userId == userId
    then Some(db.verificationRequests[id])
    else None
  }

  /**
   * What `getUserEmailVerificationRequestFromRequest` finds for the signed-in
   * user, given the request table and the cookie jar.
   */
  function RequestFromJar(requests: map<Id, VerificationRequestRow>, jar: map<string, Cookie>, user: Option<User>)
    : (r: Option<VerificationRequestRow>)
    ensures user.None? || EmailVerificationCookie !in jar ==> r.None?
    ensures user.Some? && EmailVerificationCookie in jar ==>
              var id := jar[EmailVerificationCookie].value;
              (r.Some? <==> id in requests && requests[id].userId == user.value.id)
              && (r.Some? ==> r.value == requests[id])
  {
    if user.None? || EmailVerificationCookie !in jar then None
    else
      var id := jar[EmailVerificationCookie].value;
      if id in requests && requests[id].userId == user.value.id then Some(requests[id]) else None
  }

  /** The cookie jar after that lookup: a cookie naming no request of the user is cleared. */
  function JarAfterLookup(jar: map<string, Cookie>, signedIn: bool, found: bool): (r: map<string, Cookie>)
    ensures !signedIn || EmailVerificationCookie !in jar || found ==> r == jar
    ensures signedIn && EmailVerificationCookie in jar && !found ==> r == jar[EmailVerificationCookie := Cleared]
  {
    if signedIn && EmailVerificationCookie in jar && !found then jar[EmailVerificationCookie := Cleared] else jar
  }

  /** `deleteUserEmailVerificationRequest`: deletes all and only the user's requests. */
  method DeleteUserEmailVerificationRequest(db: Database, userId: Id)
    requires db.Valid()
    modifies db`verificationRequests
    ensures db.Valid()
    ensures db.verificationRequests == RequestsWithoutUser(old(db.verificationRequests), userId)
    ensures forall id :: id in db.verificationRequests ==> db.verificationRequests[id].userId != userId
    ensures forall id :: id in old(db.verificationRequests) && old(db.verificationRequests)[id].userId != userId ==>
              id in db.verificationRequests && db.verificationRequests[id] == old(db.verificationRequests)[id]
  {
    db.verificationRequests := RequestsWithoutUser(db.verificationRequests, userId);
  }

  /**
   * `createEmailVerificationRequest`: first deletes every request of the
   * user, then inserts the new one for 10 minutes. The insert throws on a
   * taken id or an unknown user, after the deletion has happened.
   */
  method CreateEmailVerificationRequest(db: Database, userId: Id, email: string, idBytes: RandomBytes,
                                        code: string, now: Millis)
    returns (r: Try<VerificationRequestRow>)
    requires db.Valid()
    modifies db`verificationRequests
    ensures db.Valid()
    ensures r == CreatedRequest(old(db.verificationRequests), db.users, userId, email, idBytes, code, now)
    ensures db.verificationRequests == RequestsAfterCreate(old(db.verificationRequests), r, userId)
  {
    DeleteUserEmailVerificationRequest(db, userId);
    var id := RequestIdOf(idBytes);
    var expiresAt := now + RequestLifetimeMs;
    if id in db.verificationRequests || userId !in db.users {
      return Throws;
    }
    var request := VerificationRequestRow(id, userId, code, email, expiresAt);
    db.verificationRequests := db.verificationRequests[id := request];
    r := Ok(request);
  }

  /** `setEmailVerificationRequestCookie`: the cookie holds the id until the request expires. */
  method SetEmailVerificationRequestCookie(cookies: Cookies, request: VerificationRequestRow)
    modifies cookies
    ensures cookies.jar == old(cookies.jar)[EmailVerificationCookie :=
                             Cookie(request.id, Some(request.expiresAt), false)]
  {
    cookies.Set(EmailVerificationCookie, request.id, request.expiresAt);
  }

  /** `deleteEmailVerificationRequestCookie`. */
  method DeleteEmailVerificationRequestCookie(cookies: Cookies)
    modifies cookies
    ensures cookies.jar == old(cookies.jar)[EmailVerificationCookie := Cleared]
  {
    cookies.Delete(EmailVerificationCookie);
  }

  /**
   * `getUserEmailVerificationRequestFromRequest`: nothing without a signed-in
   * user or a cookie; otherwise the user's request named by the cookie, and
   * the cookie is cleared when there is none. Expiry is not checked here.
   */
  method GetUserEmailVerificationRequestFromRequest(db: Database, cookies: Cookies, user: Option<User>)
    returns (r: Option<VerificationRequestRow>)
    modifies cookies
    ensures r == RequestFromJar(db.verificationRequests, old(cookies.jar), user)
    ensures cookies.jar == JarAfterLookup(old(cookies.jar), user.Some?, r.Some?)
  {
    if user.None? {
      return None;
    }
    var id := cookies.Get(EmailVerificationCookie);
    if id.None? {
      return None;
    }
    r := GetUserEmailVerificationRequest(db, user.value.id, id.value);
    if r.None? {
      DeleteEmailVerificationRequestCookie(cookies);
    }
  }
}
