/**
 * The verify-email page: its load and its `verify` and `resend` actions. Each
 * first looks for a password-reset session; when there is a live one, the
 * page serves the reset flow and never looks at email-verification requests.
 * Otherwise it serves the signed-in user's email verification. The sending
 * of emails is returned as a `Mail` value instead of being performed.
 */
module VerifyEmailRoute {
  import opened Common
  import opened Store
  import opened Users
  import opened Http
  import opened Base32
  import opened RateLimit
  import opened Sessions
  import opened PasswordReset
  import opened EmailVerification

  /** The page's own `bucket`: 5 attempts per key per 30 minutes. */
  const VerifyBucketMax: nat := 5
  const VerifyBucketWindowSeconds: nat := 60 * 30

  /** What `verify` answers when it replaces an expired request. */
  const ExpiredMessage: string := "The verification code was expired. We sent another code to your inbox."

  method NewVerifyBucket(allows: (Memory, string, nat, Millis) -> bool,
                         takes: (Memory, string, nat, Millis) -> (bool, Memory), initial: Memory)
    returns (bucket: ExpiringTokenBucket)
    ensures fresh(bucket)
    ensures bucket.max == VerifyBucketMax == 5 && bucket.expiresInSeconds == VerifyBucketWindowSeconds == 1800
    ensures bucket.allows == allows && bucket.takes == takes && bucket.memory == initial
  {
    bucket := new ExpiringTokenBucket(VerifyBucketMax, VerifyBucketWindowSeconds, allows, takes, initial);
  }

  /**
   * What `load` does for a signed-in user once no reset session was found:
   * a live request is shown; a missing or expired one sends a verified user
   * home and makes a new request (with its cookie) for an unverified one.
   * `idBytes` and `code` are the randomness a new request would use.
   */
  method LoadSignedIn(db: Database, cookies: Cookies, user: User, now: Millis, idBytes: RandomBytes, code: string)
    returns (r: PageResult, sent: Option<Mail>)
    requires db.Valid()
    modifies db`verificationRequests, cookies
    ensures db.Valid()
    ensures var request := RequestFromJar(old(db.verificationRequests), old(cookies.jar), Some(user));
            var jar := JarAfterLookup(old(cookies.jar), true, request.Some?);
            var stale := request.None? || now >= request.value.expiresAt;
            && (!stale ==>
                  && r == PageData(request.value.email, false)
                  && db.verificationRequests == old(db.verificationRequests)
                  && cookies.jar == jar && sent.None?)
            && (stale && user.emailVerified ==>
                  && r == Redirect("/")
                  && db.verificationRequests == old(db.verificationRequests)
                  && cookies.jar == jar && sent.None?)
            && (stale && !user.emailVerified ==>
                  var created := CreatedRequest(old(db.verificationRequests), db.users, user.id, user.email,
                                                idBytes, code, now);
                  && db.verificationRequests == RequestsAfterCreate(old(db.verificationRequests), created, user.id)
                  && (created.Ok? ==>
                        && r == PageData(user.email, false) && sent == Some(Mail(user.email, code))
                        && cookies.jar == jar[EmailVerificationCookie :=
                                                Cookie(created.value.id, Some(created.value.expiresAt), false)])
                  && (created.Throws? ==> r == Crash && sent.None? && cookies.jar == jar))
  {
    var request := GetUserEmailVerificationRequestFromRequest(db, cookies, Some(user));
    if request.None? || now >= request.value.expiresAt {
      if user.emailVerified {
        return Redirect("/"), None;
      }
      var created := CreateEmailVerificationRequest(db, user.id, user.email, idBytes, code, now);
      if created.Throws? {
        return Crash, None;
      }
      sent := Some(Mail(created.value.email, created.value.code));
      SetEmailVerificationRequestCookie(cookies, created.value);
      return PageData(created.value.email, false), sent;
    }
    r, sent := PageData(request.value.email, false), None;
  }

  /**
   * `load`. With a live reset session: on to /reset-password once its code is
   * verified, else the page for the reset email. Otherwise /login without a
   * signed-in user, else `LoadSignedIn`.
   */
  method Load(db: Database, cookies: Cookies, locals: Locals, now: Millis, hashToken: string -> string,
              idBytes: RandomBytes, code: string)
    returns (r: PageResult, sent: Option<Mail>)
    requires db.Valid()
    modifies db`resetSessions, db`verificationRequests, cookies
    ensures db.Valid()
    ensures db.resetSessions == old(ResetsAfterRequest(db, cookies, now, hashToken))
    ensures var reset := old(ResetRequestLookup(db, cookies, now, hashToken));
            reset.ResetFound? ==>
              && r == (if reset.session.emailVerified then Redirect("/reset-password")
                       else PageData(reset.session.email, true))
              && db.verificationRequests == old(db.verificationRequests)
              && cookies.jar == old(cookies.jar) && sent.None?
    ensures var reset := old(ResetRequestLookup(db, cookies, now, hashToken));
            reset.NoReset? && locals.user.None? ==>
              && r == Redirect("/login")
              && db.verificationRequests == old(db.verificationRequests)
              && cookies.jar == JarAfterRequest(old(cookies.jar), false) && sent.None?
    ensures var reset := old(ResetRequestLookup(db, cookies, now, hashToken));
            reset.NoReset? && locals.user.Some? ==>
              var user := locals.user.value;
              var request := RequestFromJar(old(db.verificationRequests), JarAfterRequest(old(cookies.jar), false),
                                            Some(user));
              var jar := JarAfterLookup(JarAfterRequest(old(cookies.jar), false), true, request.Some?);
              var stale := request.None? || now >= request.value.expiresAt;
              && (!stale ==>
                    && r == PageData(request.value.email, false)
                    && db.verificationRequests == old(db.verificationRequests)
                    && cookies.jar == jar && sent.None?)
              && (stale && user.emailVerified ==>
                    && r == Redirect("/")
                    && db.verificationRequests == old(db.verificationRequests)
                    && cookies.jar == jar && sent.None?)
              && (stale && !user.emailVerified ==>
                    var created := CreatedRequest(old(db.verificationRequests), db.users, user.id, user.email,
                                                  idBytes, code, now);
                    && db.verificationRequests == RequestsAfterCreate(old(db.verificationRequests), created, user.id)
                    && (created.Ok? ==>
                          && r == PageData(user.email, false) && sent == Some(Mail(user.email, code))
                          && cookies.jar == jar[EmailVerificationCookie :=
                                                  Cookie(created.value.id, Some(created.value.expiresAt), false)])
                    && (created.Throws? ==> r == Crash && sent.None? && cookies.jar == jar))
  {
    ghost var jar := JarAfterRequest(cookies.jar, false);
    var reset := ValidatePasswordResetSessionRequest(db, cookies, now, hashToken);
    if reset.ResetFound? {
      if reset.session.emailVerified {
        return Redirect("/reset-password"), None;
      }
      return PageData(reset.session.email, true), None;
    }
    assert cookies.jar == jar && db.verificationRequests == old(db.verificationRequests);
    if locals.user.None? {
      return Redirect("/login"), None;
    }
    r, sent := LoadSignedIn(db, cookies, locals.user.value, now, idBytes, code);
  }

  /**
   * The reset branch of `verify` for the live reset `session`, taking the
   * reset table from `s` to `t` and the bucket memory from `m` to `n` with
   * answer `r`. `admits` is the bucket's check and `attempt` its consume
   * (answer and new memory). In order: 429 when the check refuses, before
   * the form is read; 400 for a missing or empty code; 429 when the consume
   * refuses; 400 for a wrong code. A matching code marks that one reset
   * session verified and redirects to /reset-password; every other answer
   * leaves the table alone.
   */
  ghost predicate ResetBranch(s: map<Id, PasswordResetRow>, t: map<Id, PasswordResetRow>, m: Memory, n: Memory,
                              session: PasswordResetSession, code: FormField, admits: bool,
                              attempt: (bool, Memory), r: PageResult)
  {
    var entered := admits && code.Text? && code.text != "";
    && (!entered ==> n == m)
    && (entered ==> n == attempt.1)
    && (!admits ==> r == Failure(429, "Too many requests"))
    && (admits && !code.Text? ==> r == Failure(400, "Invalid or missing fields"))
    && (admits && code == Text("") ==> r == Failure(400, "Enter your code"))
    && (entered && !attempt.0 ==> r == Failure(429, "Too many requests"))
    && (entered && attempt.0 && session.code != code.text ==> r == Failure(400, "Incorrect code"))
    && (entered && attempt.0 && session.code == code.text ==>
          && r == Redirect("/reset-password") && session.id in s
          && t == s[session.id := s[session.id].(emailVerified := true)])
    && (!r.Redirect? ==> t == s)
  }

  /** The reset branch of `verify`, for a live reset session, as `ResetBranch` states it. */
  method VerifyResetCode(db: Database, bucket: ExpiringTokenBucket, session: PasswordResetSession,
                         code: FormField, now: Millis)
    returns (r: PageResult)
    requires db.Valid()
    requires session.id in db.resetSessions
    modifies db`resetSessions, bucket
    ensures db.Valid()
    ensures ResetBranch(old(db.resetSessions), db.resetSessions, old(bucket.memory), bucket.memory, session, code,
                        old(bucket.Check(session.id, 1, now)), old(bucket.takes(bucket.memory, session.id, 1, now)), r)
    ensures r.Redirect? <==> old(bucket.Check(session.id, 1, now)) && code == Text(session.code) && code.text != ""
                             && old(bucket.takes(bucket.memory, session.id, 1, now)).0
  {
    if !bucket.Check(session.id, 1, now) {
      return Failure(429, "Too many requests");
    }
    if !code.Text? {
      return Failure(400, "Invalid or missing fields");
    }
    if code.text == "" {
      return Failure(400, "Enter your code");
    }
    var consumed := bucket.Consume(session.id, 1, now);
    if !consumed {
      return Failure(429, "Too many requests");
    }
    if session.code != code.text {
      return Failure(400, "Incorrect code");
    }
    var marked := SetPasswordResetSessionAsEmailVerified(db, session.id);
    r := Redirect("/reset-password");
  }

  /**
   * The expired-request step of `verify` as the handler writes it: the
   * user's requests are replaced by a new one and its code is mailed, but
   * the cookie is not set, so it still names the deleted request. The next
   * `verify` then finds no request unless the new id happens to equal the
   * one in the cookie.
   */
  method ReplaceExpiredRequestAsWritten(db: Database, cookies: Cookies, user: User, request: VerificationRequestRow,
                                        now: Millis, idBytes: RandomBytes, newCode: string)
    returns (r: PageResult, sent: Option<Mail>)
    requires db.Valid()
    requires request.userId == user.id
    modifies db`verificationRequests
    ensures db.Valid()
    ensures var created := CreatedRequest(old(db.verificationRequests), db.users, user.id, request.email,
                                          idBytes, newCode, now);
            && db.verificationRequests == RequestsAfterCreate(old(db.verificationRequests), created, user.id)
            && (created.Ok? ==>
                  r == Message(ExpiredMessage)
                  && sent == Some(Mail(request.email, newCode)))
            && (created.Throws? ==> r == Crash && sent.None?)
    ensures EmailVerificationCookie !in cookies.jar || cookies.jar[EmailVerificationCookie].value != RequestIdOf(idBytes) ==>
              RequestFromJar(db.verificationRequests, cookies.jar, Some(user)).None?
  {
    var created := CreateEmailVerificationRequest(db, request.userId, request.email, idBytes, newCode, now);
    if created.Throws? {
      return Crash, None;
    }
    sent := Some(Mail(created.value.email, created.value.code));
    r := Message(ExpiredMessage);
  }

  /**
   * The expired-request step of `verify` as intended: as above, and the new
   * request's cookie is set as `load` and `resend` do, so the next `verify`
   * finds the request whose code was mailed.
   */
  method ReplaceExpiredRequest(db: Database, cookies: Cookies, user: User, request: VerificationRequestRow,
                               now: Millis, idBytes: RandomBytes, newCode: string)
    returns (r: PageResult, sent: Option<Mail>)
    requires db.Valid()
    requires request.userId == user.id
    modifies db`verificationRequests, cookies
    ensures db.Valid()
    ensures var created := CreatedRequest(old(db.verificationRequests), db.users, user.id, request.email,
                                          idBytes, newCode, now);
            && db.verificationRequests == RequestsAfterCreate(old(db.verificationRequests), created, user.id)
            && (created.Ok? ==>
                  && r == Message(ExpiredMessage)
                  && sent == Some(Mail(request.email, newCode))
                  && cookies.jar == old(cookies.jar)[EmailVerificationCookie :=
                                                       Cookie(created.value.id, Some(created.value.expiresAt), false)]
                  && RequestFromJar(db.verificationRequests, cookies.jar, Some(user)) == Some(created.value))
            && (created.Throws? ==> r == Crash && sent.None? && cookies.jar == old(cookies.jar))
  {
    var created := CreateEmailVerificationRequest(db, request.userId, request.email, idBytes, newCode, now);
    if created.Throws? {
      return Crash, None;
    }
    sent := Some(Mail(created.value.email, created.value.code));
    SetEmailVerificationRequestCookie(cookies, created.value);
    r := Message(ExpiredMessage);
  }

  /**
   * As written, the code mailed for an expired request never completes a
   * later `verify`: the cookie names the deleted request, so that `verify`
   * answers 429 or 401, and clears the cookie.
   */
  method MailedCodeRefusedAsWritten(db: Database, cookies: Cookies, bucket: ExpiringTokenBucket, user: User,
                                    request: VerificationRequestRow, now: Millis, idBytes: RandomBytes,
                                    newCode: string, later: Millis, laterBytes: RandomBytes, laterCode: string)
    returns (first: PageResult, second: PageResult)
    requires db.Valid()
    requires request.userId == user.id
    requires EmailVerificationCookie in cookies.jar && cookies.jar[EmailVerificationCookie].value == request.id
    requires RequestIdOf(idBytes) != request.id
    modifies db`users, db`resetSessions, db`verificationRequests, cookies, bucket
    ensures first.Message? ==> second == Failure(401, "Not authenticated") || second == Failure(429, "Too many requests")
  {
    var mailed;
    first, mailed := ReplaceExpiredRequestAsWritten(db, cookies, user, request, now, idBytes, newCode);
    assert RequestFromJar(db.verificationRequests, cookies.jar, Some(user)).None?;
    second, mailed := VerifyEmailCode(db, cookies, bucket, user, Text(newCode), later, laterBytes, laterCode);
  }

  /**
   * With the cookie set, the mailed code completes the next `verify` while
   * the new request lives, once the bucket admits the attempt and no other
   * user holds the address.
   */
  method MailedCodeAccepted(db: Database, cookies: Cookies, bucket: ExpiringTokenBucket, user: User,
                            request: VerificationRequestRow, now: Millis, idBytes: RandomBytes,
                            newCode: string, later: Millis, laterBytes: RandomBytes, laterCode: string)
    returns (first: PageResult, second: PageResult)
    requires db.Valid()
    requires request.userId == user.id && user.id in db.users
    requires RequestIdOf(idBytes) !in RequestsWithoutUser(db.verificationRequests, user.id)
    requires CanTakeEmail(db.users, user.id, request.email)
    requires newCode != "" && now <= later < now + RequestLifetimeMs
    requires bucket.Check(user.id, 1, later) && bucket.takes(bucket.memory, user.id, 1, later).0
    modifies db`users, db`resetSessions, db`verificationRequests, cookies, bucket
    ensures first.Message? && second == Redirect("/")
    ensures user.id in db.users && db.users[user.id].email == request.email
    ensures db.users[user.id].emailVerified == Some(true)
  {
    var mailed;
    first, mailed := ReplaceExpiredRequest(db, cookies, user, request, now, idBytes, newCode);
    ghost var created := CreatedRequest(old(db.verificationRequests), db.users, user.id, request.email,
                                        idBytes, newCode, now);
    assert created.Ok? && first.Message?;
    ghost var found := RequestFromJar(db.verificationRequests, cookies.jar, Some(user));
    assert found == Some(created.value) && found.value.code == newCode && later < found.value.expiresAt;
    second, mailed := VerifyEmailCode(db, cookies, bucket, user, Text(newCode), later, laterBytes, laterCode);
  }

  /**
   * The end of the email-verification branch of `verify`, once the bucket
   * has admitted the attempt: an expired request is replaced without
   * comparing the code and the cookie is left as it was (see
   * `ReplaceExpiredRequestAsWritten`); a wrong code changes
   * nothing; a matching code deletes the user's requests and reset sessions,
   * then sets the request's email as the user's verified email and clears
   * the cookie. The user update throws when another user holds that email.
   */
  method CheckRequestCode(db: Database, cookies: Cookies, user: User, request: VerificationRequestRow,
                          code: string, now: Millis, idBytes: RandomBytes, newCode: string)
    returns (r: PageResult, sent: Option<Mail>)
    requires db.Valid()
    requires request.userId == user.id
    modifies db`users, db`resetSessions, db`verificationRequests, cookies
    ensures db.Valid()
    ensures now >= request.expiresAt ==>
              var created := CreatedRequest(old(db.verificationRequests), old(db.users), user.id,
                                            request.email, idBytes, newCode, now);
              && db.users == old(db.users) && db.resetSessions == old(db.resetSessions)
              && db.verificationRequests == RequestsAfterCreate(old(db.verificationRequests), created, user.id)
              && cookies.jar == old(cookies.jar)
              && (created.Ok? ==>
                    && r == Message(ExpiredMessage)
                    && sent == Some(Mail(request.email, newCode)))
              && (created.Throws? ==> r == Crash && sent.None?)
    ensures now < request.expiresAt && request.code != code ==>
              && r == Failure(400, "Incorrect code.") && sent.None?
              && db.users == old(db.users) && db.resetSessions == old(db.resetSessions)
              && db.verificationRequests == old(db.verificationRequests) && cookies.jar == old(cookies.jar)
    ensures now < request.expiresAt && request.code == code ==>
              var updated := CanTakeEmail(old(db.users), user.id, request.email);
              && db.verificationRequests == RequestsWithoutUser(old(db.verificationRequests), user.id)
              && db.resetSessions == ResetSessionsWithoutUser(old(db.resetSessions), user.id)
              && sent.None?
              && (updated ==>
                    && db.users == old(db.users)[user.id := old(db.users)[user.id].(
                                      email := request.email, emailVerified := Some(true))]
                    && cookies.jar == old(cookies.jar)[EmailVerificationCookie := Cleared]
                    && r == Redirect("/"))
              && (!updated ==> db.users == old(db.users) && cookies.jar == old(cookies.jar) && r == Crash)
    ensures now < request.expiresAt && request.code == code && CanTakeEmail(old(db.users), user.id, request.email) ==>
              r == Redirect("/")
    ensures r == Redirect("/") ==>
              && now < request.expiresAt && request.code == code
              && db.verificationRequests == RequestsWithoutUser(old(db.verificationRequests), user.id)
              && db.users == old(db.users)[user.id := old(db.users)[user.id].(
                                email := request.email, emailVerified := Some(true))]
  {
    sent := None;
    if now >= request.expiresAt {
      r, sent := ReplaceExpiredRequestAsWritten(db, cookies, user, request, now, idBytes, newCode);
      return;
    }
    if request.code != code {
      return Failure(400, "Incorrect code."), None;
    }
    DeleteUserEmailVerificationRequest(db, user.id);
    InvalidateUserPasswordResetSessions(db, user.id);
    var updated := UpdateUserEmailAndSetEmailAsVerified(db, user.id, request.email, None);
    if !updated {
      return Crash, None;
    }
    DeleteEmailVerificationRequestCookie(cookies);
    r := Redirect("/");
  }

  /** What the email-verification branches of `verify` and `resend` read and write: the tables, the cookies and a bucket's memory. */
  datatype VerifyState = VerifyState(users: map<Id, UserRow>, requests: map<Id, VerificationRequestRow>,
                                     resets: map<Id, PasswordResetRow>, jar: map<string, Cookie>, memory: Memory)

  /**
   * The email-verification branch of `verify` for the signed-in `user`,
   * going from state `s` to state `t` with answer `r` and mail `sent`.
   * `admits` is the bucket's check and `attempt` its consume (answer and new
   * memory). In order: 429 when the check refuses; 401 (clearing the
   * cookie) when the cookie names no request of the user; 400 for a missing
   * or empty code; 400, not 429, when the consume refuses. An expired
   * request is then replaced and its successor's code mailed without
   * comparing the code, and the cookie is left naming the old request. A
   * wrong code answers "Incorrect code.". A matching code deletes the user's
   * requests and reset sessions, then sets the request's email as the
   * user's verified email (which throws when another user holds it) and
   * clears the cookie. Every refusal leaves the tables and the mail alone.
   */
  ghost predicate EmailBranch(s: VerifyState, t: VerifyState, user: User, code: FormField, now: Millis,
                              admits: bool, attempt: (bool, Memory), idBytes: RandomBytes, newCode: string,
                              r: PageResult, sent: Option<Mail>)
  {
    var request := RequestFromJar(s.requests, s.jar, Some(user));
    var entered := admits && request.Some? && code.Text? && code.text != "";
    && (!entered ==> t.memory == s.memory)
    && (entered ==> t.memory == attempt.1)
    && (!admits ==> r == Failure(429, "Too many requests"))
    && (admits && request.None? ==> r == Failure(401, "Not authenticated"))
    && (admits && request.Some? && !code.Text? ==> r == Failure(400, "Invalid or missing fields"))
    && (admits && request.Some? && code == Text("") ==> r == Failure(400, "Enter your code"))
    && (entered && !attempt.0 ==> r == Failure(400, "Too many requests"))
    && (entered && attempt.0 && now < request.value.expiresAt && request.value.code != code.text ==>
          r == Failure(400, "Incorrect code."))
    && (r.Failure? ==>
          && t.users == s.users && t.requests == s.requests && t.resets == s.resets && sent.None?
          && t.jar == (if admits && request.None? then JarAfterLookup(s.jar, true, false) else s.jar))
    && (entered && attempt.0 && now >= request.value.expiresAt ==>
          var created := CreatedRequest(s.requests, s.users, user.id, request.value.email, idBytes, newCode, now);
          && t.users == s.users && t.resets == s.resets && t.jar == s.jar
          && t.requests == RequestsAfterCreate(s.requests, created, user.id)
          && (created.Ok? ==> r == Message(ExpiredMessage) && sent == Some(Mail(request.value.email, newCode)))
          && (created.Throws? ==> r == Crash && sent.None?))
    && (entered && attempt.0 && now < request.value.expiresAt && request.value.code == code.text ==>
          && t.requests == RequestsWithoutUser(s.requests, user.id)
          && t.resets == ResetSessionsWithoutUser(s.resets, user.id)
          && sent.None?
          && (CanTakeEmail(s.users, user.id, request.value.email) ==>
                && r == Redirect("/")
                && t.users == s.users[user.id := s.users[user.id].(email := request.value.email, emailVerified := Some(true))]
                && t.jar == s.jar[EmailVerificationCookie := Cleared])
          && (!CanTakeEmail(s.users, user.id, request.value.email) ==>
                r == Crash && t.users == s.users && t.jar == s.jar))
  }

  /** The email-verification branch of `verify`, for a signed-in user, as `EmailBranch` states it. */
  method VerifyEmailCode(db: Database, cookies: Cookies, bucket: ExpiringTokenBucket, user: User,
                         code: FormField, now: Millis, idBytes: RandomBytes, newCode: string)
    returns (r: PageResult, sent: Option<Mail>)
    requires db.Valid()
    modifies db`users, db`resetSessions, db`verificationRequests, cookies, bucket
    ensures db.Valid()
    ensures EmailBranch(VerifyState(old(db.users), old(db.verificationRequests), old(db.resetSessions),
                                    old(cookies.jar), old(bucket.memory)),
                        VerifyState(db.users, db.verificationRequests, db.resetSessions, cookies.jar, bucket.memory),
                        user, code, now, old(bucket.Check(user.id, 1, now)),
                        old(bucket.takes(bucket.memory, user.id, 1, now)), idBytes, newCode, r, sent)
    ensures r == Redirect("/") ==>
              var request := RequestFromJar(old(db.verificationRequests), old(cookies.jar), Some(user));
              && request.Some? && code == Text(request.value.code) && now < request.value.expiresAt
              && db.verificationRequests == RequestsWithoutUser(old(db.verificationRequests), user.id)
              && db.users == old(db.users)[user.id := old(db.users)[user.id].(
                                email := request.value.email, emailVerified := Some(true))]
    ensures var request := RequestFromJar(old(db.verificationRequests), old(cookies.jar), Some(user));
            && old(bucket.Check(user.id, 1, now)) && old(bucket.takes(bucket.memory, user.id, 1, now)).0
            && request.Some? && code == Text(request.value.code) && request.value.code != ""
            && now < request.value.expiresAt && CanTakeEmail(old(db.users), user.id, request.value.email) ==>
              r == Redirect("/")
  {
    sent := None;
    if !bucket.Check(user.id, 1, now) {
      return Failure(429, "Too many requests"), None;
    }
    var request := GetUserEmailVerificationRequestFromRequest(db, cookies, Some(user));
    if request.None? {
      return Failure(401, "Not authenticated"), None;
    }
    if !code.Text? {
      return Failure(400, "Invalid or missing fields"), None;
    }
    if code.text == "" {
      return Failure(400, "Enter your code"), None;
    }
    var consumed := bucket.Consume(user.id, 1, now);
    if !consumed {
      return Failure(400, "Too many requests"), None;
    }
    r, sent := CheckRequestCode(db, cookies, user, request.value, code.text, now, idBytes, newCode);
  }

  /**
   * What `verify` does once no reset session was found: 401 without a
   * signed-in session, else the email-verification branch.
   */
  method VerifySignedIn(db: Database, cookies: Cookies, bucket: ExpiringTokenBucket, locals: Locals,
                        code: FormField, now: Millis, idBytes: RandomBytes, newCode: string)
    returns (r: PageResult, sent: Option<Mail>)
    requires db.Valid()
    modifies db`users, db`resetSessions, db`verificationRequests, cookies, bucket
    ensures db.Valid()
    ensures locals.session.None? || locals.user.None? ==>
              && r == Failure(401, "Not authenticated") && sent.None?
              && db.users == old(db.users) && db.verificationRequests == old(db.verificationRequests)
              && db.resetSessions == old(db.resetSessions) && cookies.jar == old(cookies.jar)
              && bucket.memory == old(bucket.memory)
    ensures locals.session.Some? && locals.user.Some? ==>
              EmailBranch(VerifyState(old(db.users), old(db.verificationRequests), old(db.resetSessions),
                                      old(cookies.jar), old(bucket.memory)),
                          VerifyState(db.users, db.verificationRequests, db.resetSessions, cookies.jar, bucket.memory),
                          locals.user.value, code, now, old(bucket.Check(locals.user.value.id, 1, now)),
                          old(bucket.takes(bucket.memory, locals.user.value.id, 1, now)), idBytes, newCode, r, sent)
  {
    if locals.session.None? || locals.user.None? {
      return Failure(401, "Not authenticated"), None;
    }
    r, sent := VerifyEmailCode(db, cookies, bucket, locals.user.value, code, now, idBytes, newCode);
  }

  /**
   * The `verify` action: the reset branch when a live reset session exists,
   * else 401 without a signed-in session, else the email-verification branch.
   * The reset branch leaves the user, the requests and the cookies alone.
   */
  method VerifyCode(db: Database, cookies: Cookies, bucket: ExpiringTokenBucket, locals: Locals,
                    code: FormField, now: Millis, hashToken: string -> string,
                    idBytes: RandomBytes, newCode: string)
    returns (r: PageResult, sent: Option<Mail>)
    requires db.Valid()
    modifies db`users, db`resetSessions, db`verificationRequests, cookies, bucket
    ensures db.Valid()
    ensures var reset := old(ResetRequestLookup(db, cookies, now, hashToken));
            reset.ResetFound? ==>
              && db.users == old(db.users) && db.verificationRequests == old(db.verificationRequests)
              && cookies.jar == old(cookies.jar) && sent.None?
              && ResetBranch(old(db.resetSessions), db.resetSessions, old(bucket.memory), bucket.memory,
                             reset.session, code, old(bucket.Check(reset.session.id, 1, now)),
                             old(bucket.takes(bucket.memory, reset.session.id, 1, now)), r)
    ensures var reset := old(ResetRequestLookup(db, cookies, now, hashToken));
            reset.NoReset? && (locals.session.None? || locals.user.None?) ==>
              && r == Failure(401, "Not authenticated") && sent.None?
              && db.users == old(db.users) && db.verificationRequests == old(db.verificationRequests)
              && db.resetSessions == old(ResetsAfterRequest(db, cookies, now, hashToken))
              && cookies.jar == JarAfterRequest(old(cookies.jar), false)
              && bucket.memory == old(bucket.memory)
    ensures old(ResetRequestLookup(db, cookies, now, hashToken)).NoReset? && locals.session.Some? && locals.user.Some? ==>
              EmailBranch(VerifyState(old(db.users), old(db.verificationRequests),
                                      old(ResetsAfterRequest(db, cookies, now, hashToken)),
                                      JarAfterRequest(old(cookies.jar), false), old(bucket.memory)),
                          VerifyState(db.users, db.verificationRequests, db.resetSessions, cookies.jar, bucket.memory),
                          locals.user.value, code, now, old(bucket.Check(locals.user.value.id, 1, now)),
                          old(bucket.takes(bucket.memory, locals.user.value.id, 1, now)), idBytes, newCode, r, sent)
  {
    ghost var jar := JarAfterRequest(cookies.jar, false);
    ghost var requests := db.verificationRequests;
    var reset := ValidatePasswordResetSessionRequest(db, cookies, now, hashToken);
    if reset.ResetFound? {
      assert db.resetSessions == old(db.resetSessions) && cookies.jar == old(cookies.jar);
      r := VerifyResetCode(db, bucket, reset.session, code, now);
      return r, None;
    }
    assert cookies.jar == jar && db.verificationRequests == requests && db.users == old(db.users);
    r, sent := VerifySignedIn(db, cookies, bucket, locals, code, now, idBytes, newCode);
  }

  /**
   * The reset branch of `resend`, for a live reset session: after the page's
   * bucket admits it, the same reset code is mailed again and nothing is
   * stored.
   */
  method ResendResetCode(bucket: ExpiringTokenBucket, session: PasswordResetSession, now: Millis)
    returns (r: PageResult, sent: Option<Mail>)
    modifies bucket
    ensures var attempt := old(bucket.takes(bucket.memory, session.id, 1, now));
            && (!old(bucket.Check(session.id, 1, now)) ==>
                  r == Failure(429, "Too many requests") && bucket.memory == old(bucket.memory) && sent.None?)
            && (old(bucket.Check(session.id, 1, now)) ==> bucket.memory == attempt.1)
            && (old(bucket.Check(session.id, 1, now)) && !attempt.0 ==> r == Failure(429, "Too many requests") && sent.None?)
            && (old(bucket.Check(session.id, 1, now)) && attempt.0 ==>
                  r == Message("A new code was sent to your inbox.") && sent == Some(Mail(session.email, session.code)))
  {
    if !bucket.Check(session.id, 1, now) {
      return Failure(429, "Too many requests"), None;
    }
    var consumed := bucket.Consume(session.id, 1, now);
    if !consumed {
      return Failure(429, "Too many requests"), None;
    }
    sent := Some(Mail(session.email, session.code));
    r := Message("A new code was sent to your inbox.");
  }

  /**
   * The email-verification branch of `resend` for the signed-in `user`,
   * going from state `s` to state `t` with answer `r` and mail `sent`;
   * `memory` is the send bucket's. `admits` is the send bucket's check and
   * `attempt` its consume (answer and new memory). In order: 429 when the
   * check refuses, before the cookie is looked up; 403 for a verified user
   * whose cookie names no request, before the bucket is consumed; 429 when
   * the consume refuses. Otherwise a new request replaces the user's
   * requests, keeping the old request's address when there was one, its
   * code is mailed and its cookie is set. The users and reset sessions are
   * never touched.
   */
  ghost predicate ResendBranch(s: VerifyState, t: VerifyState, user: User, now: Millis, admits: bool,
                               attempt: (bool, Memory), idBytes: RandomBytes, newCode: string,
                               r: PageResult, sent: Option<Mail>)
  {
    var request := RequestFromJar(s.requests, s.jar, Some(user));
    var lookedUp := JarAfterLookup(s.jar, true, request.Some?);
    var email := if request.Some? then request.value.email else user.email;
    var refused := !admits || (request.None? && user.emailVerified);
    && t.users == s.users && t.resets == s.resets
    && (!admits ==> r == Failure(429, "Too many requests"))
    && (admits && request.None? && user.emailVerified ==> r == Failure(403, "Forbidden"))
    && (refused ==>
          && t.memory == s.memory && sent.None? && t.requests == s.requests
          && t.jar == (if admits then lookedUp else s.jar))
    && (!refused ==> t.memory == attempt.1)
    && (!refused && !attempt.0 ==>
          r == Failure(429, "Too many requests") && sent.None? && t.requests == s.requests && t.jar == lookedUp)
    && (!refused && attempt.0 ==>
          var created := CreatedRequest(s.requests, s.users, user.id, email, idBytes, newCode, now);
          && t.requests == RequestsAfterCreate(s.requests, created, user.id)
          && (created.Ok? ==>
                && r == Message("A new code was sent to your inbox.")
                && sent == Some(Mail(email, newCode))
                && t.jar == lookedUp[EmailVerificationCookie :=
                                       Cookie(created.value.id, Some(created.value.expiresAt), false)])
          && (created.Throws? ==> r == Crash && sent.None? && t.jar == lookedUp))
  }

  /** The email-verification branch of `resend`, for a signed-in user, as `ResendBranch` states it. */
  method ResendVerificationCode(db: Database, cookies: Cookies, sendBucket: ExpiringTokenBucket, user: User,
                                now: Millis, idBytes: RandomBytes, newCode: string)
    returns (r: PageResult, sent: Option<Mail>)
    requires db.Valid()
    modifies db`verificationRequests, cookies, sendBucket
    ensures db.Valid()
    ensures ResendBranch(VerifyState(old(db.users), old(db.verificationRequests), old(db.resetSessions),
                                     old(cookies.jar), old(sendBucket.memory)),
                         VerifyState(db.users, db.verificationRequests, db.resetSessions, cookies.jar, sendBucket.memory),
                         user, now, old(sendBucket.Check(user.id, 1, now)),
                         old(sendBucket.takes(sendBucket.memory, user.id, 1, now)), idBytes, newCode, r, sent)
    ensures var request := RequestFromJar(old(db.verificationRequests), old(cookies.jar), Some(user));
            r.Message? ==>
              && old(sendBucket.Check(user.id, 1, now)) && (request.Some? || !user.emailVerified)
              && sent == Some(Mail(if request.Some? then request.value.email else user.email, newCode))
              && var found := RequestFromJar(db.verificationRequests, cookies.jar, Some(user));
                 found.Some? && found.value.code == newCode
  {
    sent := None;
    if !sendBucket.Check(user.id, 1, now) {
      return Failure(429, "Too many requests"), None;
    }
    var request := GetUserEmailVerificationRequestFromRequest(db, cookies, Some(user));
    var email: string;
    if request.None? {
      if user.emailVerified {
        return Failure(403, "Forbidden"), None;
      }
      var consumed := sendBucket.Consume(user.id, 1, now);
      if !consumed {
        return Failure(429, "Too many requests"), None;
      }
      email := user.email;
    } else {
      var consumed := sendBucket.Consume(user.id, 1, now);
      if !consumed {
        return Failure(429, "Too many requests"), None;
      }
      email := request.value.email;
    }
    var created := CreateEmailVerificationRequest(db, user.id, email, idBytes, newCode, now);
    if created.Throws? {
      return Crash, None;
    }
    sent := Some(Mail(created.value.email, created.value.code));
    SetEmailVerificationRequestCookie(cookies, created.value);
    assert RequestFromJar(db.verificationRequests, cookies.jar, Some(user)) == Some(created.value);
    r := Message("A new code was sent to your inbox.");
  }

  /**
   * The `resend` action: the reset branch when a live reset session exists,
   * else 401 without a signed-in session, else the email-verification branch.
   * Each branch touches only its own bucket.
   */
  method ResendEmail(db: Database, cookies: Cookies, bucket: ExpiringTokenBucket,
                     sendBucket: ExpiringTokenBucket, locals: Locals, now: Millis,
                     hashToken: string -> string, idBytes: RandomBytes, newCode: string)
    returns (r: PageResult, sent: Option<Mail>)
    requires db.Valid()
    requires bucket != sendBucket
    modifies db`resetSessions, db`verificationRequests, cookies, bucket, sendBucket
    ensures db.Valid()
    ensures db.resetSessions == old(ResetsAfterRequest(db, cookies, now, hashToken))
    ensures var reset := old(ResetRequestLookup(db, cookies, now, hashToken));
            reset.ResetFound? ==>
              && db.verificationRequests == old(db.verificationRequests)
              && cookies.jar == old(cookies.jar) && sendBucket.memory == old(sendBucket.memory)
              && (r.Message? <==> old(bucket.Check(reset.session.id, 1, now))
                                  && old(bucket.takes(bucket.memory, reset.session.id, 1, now)).0)
              && (r.Message? ==> sent == Some(Mail(reset.session.email, reset.session.code)))
              && (!r.Message? ==> r == Failure(429, "Too many requests") && sent.None?)
              && (old(bucket.Check(reset.session.id, 1, now)) ==>
                    bucket.memory == old(bucket.takes(bucket.memory, reset.session.id, 1, now)).1)
              && (!old(bucket.Check(reset.session.id, 1, now)) ==> bucket.memory == old(bucket.memory))
    ensures var reset := old(ResetRequestLookup(db, cookies, now, hashToken));
            reset.NoReset? ==>
              && bucket.memory == old(bucket.memory)
              && (locals.session.None? || locals.user.None? ==>
                    && r == Failure(401, "Not authenticated") && sent.None?
                    && db.verificationRequests == old(db.verificationRequests)
                    && cookies.jar == JarAfterRequest(old(cookies.jar), false)
                    && sendBucket.memory == old(sendBucket.memory))
    ensures old(ResetRequestLookup(db, cookies, now, hashToken)).NoReset? && locals.session.Some? && locals.user.Some? ==>
              ResendBranch(VerifyState(old(db.users), old(db.verificationRequests),
                                       old(ResetsAfterRequest(db, cookies, now, hashToken)),
                                       JarAfterRequest(old(cookies.jar), false), old(sendBucket.memory)),
                           VerifyState(db.users, db.verificationRequests, db.resetSessions, cookies.jar, sendBucket.memory),
                           locals.user.value, now, old(sendBucket.Check(locals.user.value.id, 1, now)),
                           old(sendBucket.takes(sendBucket.memory, locals.user.value.id, 1, now)),
                           idBytes, newCode, r, sent)
    ensures old(ResetRequestLookup(db, cookies, now, hashToken)).NoReset? && r.Message? ==>
              && locals.session.Some? && locals.user.Some? && sent.Some? && sent.value.code == newCode
              && var found := RequestFromJar(db.verificationRequests, cookies.jar, locals.user);
                 found.Some? && found.value.code == newCode
  {
    sent := None;
    ghost var jar := JarAfterRequest(cookies.jar, false);
    ghost var requests := db.verificationRequests;
    var reset := ValidatePasswordResetSessionRequest(db, cookies, now, hashToken);
    if reset.ResetFound? {
      assert cookies.jar == old(cookies.jar);
      r, sent := ResendResetCode(bucket, reset.session, now);
      return;
    }
    assert cookies.jar == jar && db.verificationRequests == requests;
    if locals.session.None? || locals.user.None? {
      return Failure(401, "Not authenticated"), None;
    }
    r, sent := ResendVerificationCode(db, cookies, sendBucket, locals.user.value, now, idBytes, newCode);
  }
}
