/** The user record manager: input checks, creation, updates and lookups. */
module Users {
  import opened Common
  import opened Store

  /** The user view handed to callers: never carries the password hash. */
  datatype User = User(id: Id, email: string, username: string, emailVerified: bool)

  /** Builds the view of a row; a null `emailVerified` reads as false (`|| false`). */
  function ViewOf(row: UserRow): (u: User)
    ensures u.id == row.id && u.email == row.email && u.username == row.name
    ensures u.emailVerified <==> row.emailVerified == Some(true)
  {
    User(row.id, row.email, row.name, row.emailVerified == Some(true))
  }

  /** The characters `String.prototype.trim` removes: white space and line terminators. */
  predicate IsJsWhitespace(c: char)
  {
    var n := c as int;
    n == 0x09 || n == 0x0A || n == 0x0B || n == 0x0C || n == 0x0D || n == 0x20
    || n == 0xA0 || n == 0x1680 || (0x2000 <= n <= 0x200A) || n == 0x2028 || n == 0x2029
    || n == 0x202F || n == 0x205F || n == 0x3000 || n == 0xFEFF
  }

  /** Drops the white space at the front of `s`, and nothing else. */
  function TrimStart(s: string): (r: string)
    ensures |r| <= |s| && r == s[|s| - |r|..]
    ensures forall k :: 0 <= k < |s| - |r| ==> IsJsWhitespace(s[k])
    ensures r == [] || !IsJsWhitespace(r[0])
  {
    if s != [] && IsJsWhitespace(s[0]) then TrimStart(s[1..]) else s
  }

  /** Drops the white space at the end of `s`, and nothing else. */
  function TrimEnd(s: string): (r: string)
    ensures |r| <= |s| && r == s[..|r|]
    ensures forall k :: |r| <= k < |s| ==> IsJsWhitespace(s[k])
    ensures r == [] || !IsJsWhitespace(r[|r| - 1])
  {
    if s != [] && IsJsWhitespace(s[|s| - 1]) then TrimEnd(s[..|s| - 1]) else s
  }

  /** `String.prototype.trim`. */
  function Trim(s: string): (r: string)
    ensures |r| <= |s|
    ensures r == s <==> s == [] || (!IsJsWhitespace(s[0]) && !IsJsWhitespace(s[|s| - 1]))
  {
    var front := TrimStart(s);
    var r := TrimEnd(front);
    assert |r| == |s| ==> front == s;
    r
  }

  /** `verifyUsernameInput`: 4 to 31 characters, no white space at either end. */
  function VerifyUsernameInput(username: string): (ok: bool)
    ensures ok <==> 3 < |username| < 32
                    && !IsJsWhitespace(username[0]) && !IsJsWhitespace(username[|username| - 1])
  {
    if |username| > 3 && |username| < 32 then IsTrimmed(username) else false
  }

  /** `s.trim() === s`. */
  predicate IsTrimmed(s: string)
    ensures IsTrimmed(s) <==> s == [] || (!IsJsWhitespace(s[0]) && !IsJsWhitespace(s[|s| - 1]))
  {
    Trim(s) == s
  }

  /**
   * `createUser`: inserts an unverified user holding the hash of the password
   * and an encrypted recovery code. The insert throws on a taken id or email.
   */
  method CreateUser(db: Database, email: string, username: string, password: string,
                    newId: Id, hashPassword: string -> string, encryptedRecoveryCode: string)
    returns (r: Try<User>)
    requires db.Valid()
    modifies db`users
    ensures db.Valid()
    ensures r.Ok? <==> newId !in old(db.users) && !EmailTaken(old(db.users), email)
    ensures r.Ok? ==> r.value == User(newId, email, username, false)
    ensures r.Ok? ==> db.users == old(db.users)[newId := UserRow(newId, email, username,
                         hashPassword(password), Some(false), Some(encryptedRecoveryCode))]
    ensures r.Throws? ==> db.users == old(db.users)
  {
    var passwordHash := hashPassword(password);
    if newId in db.users || EmailTaken(db.users, email) {
      return Throws;
    }
    db.users := db.users[newId := UserRow(newId, email, username, passwordHash, Some(false),
                                          Some(encryptedRecoveryCode))];
    r := Ok(User(newId, email, username, false));
  }

  /** `updateUserPassword`: replaces only the password hash; throws for an unknown id. */
  method UpdateUserPassword(db: Database, userId: Id, password: string, hashPassword: string -> string)
    returns (ok: bool)
    requires db.Valid()
    modifies db`users
    ensures db.Valid()
    ensures ok <==> userId in old(db.users)
    ensures ok ==> db.users == old(db.users)[userId := old(db.users)[userId].(password := hashPassword(password))]
    ensures !ok ==> db.users == old(db.users)
  {
    if userId !in db.users {
      return false;
    }
    db.users := db.users[userId := db.users[userId].(password := hashPassword(password))];
    ok := true;
  }

  /** The user exists and no other user holds the email, so the unique-email update goes through. */
  predicate CanTakeEmail(users: map<Id, UserRow>, userId: Id, email: string)
  {
    userId in users && forall id :: id in users && users[id].email == email ==> id == userId
  }

  /**
   * `updateUserEmailAndSetEmailAsVerified`: sets the email and marks it
   * verified; the name changes only when a truthy username is given. The
   * update throws for an unknown id or an email another user holds.
   */
  method UpdateUserEmailAndSetEmailAsVerified(db: Database, userId: Id, email: string, username: Option<string>)
    returns (ok: bool)
    requires db.Valid()
    modifies db`users
    ensures db.Valid()
    ensures ok <==> CanTakeEmail(old(db.users), userId, email)
    ensures ok ==> db.users == old(db.users)[userId := old(db.users)[userId].(
                      email := email, emailVerified := Some(true),
                      name := if Truthy(username) then username.value else old(db.users)[userId].name)]
    ensures !ok ==> db.users == old(db.users)
  {
    if userId !in db.users || exists id :: id in db.users && db.users[id].email == email && id != userId {
      return false;
    }
    var row := db.users[userId].(email := email, emailVerified := Some(true));
    if Truthy(username) {
      row := row.(name := username.value);
    }
    db.users := db.users[userId := row];
    ok := true;
  }

  /**
   * `setUserAsEmailVerifiedIfEmailMatches`: an `updateMany` on id and email;
   * reports whether a row matched. The update cannot throw here, so the
   * catch-all `false` never arises in the model.
   */
  method SetUserAsEmailVerifiedIfEmailMatches(db: Database, userId: Id, email: string)
    returns (changed: bool)
    requires db.Valid()
    modifies db`users
    ensures db.Valid()
    ensures changed <==> userId in old(db.users) && old(db.users)[userId].email == email
    ensures changed ==> db.users == old(db.users)[userId := old(db.users)[userId].(emailVerified := Some(true))]
    ensures !changed ==> db.users == old(db.users)
  {
    changed := userId in db.users && db.users[userId].email == email;
    if changed {
      db.users := db.users[userId := db.users[userId].(emailVerified := Some(true))];
    }
  }

  /** `getUserPasswordHash`: the stored hash; throws for an unknown id. */
  function GetUserPasswordHash(db: Database, userId: Id): (r: Try<string>)
    reads db
    ensures r.Ok? <==> userId in db.users
    ensures r.Ok? ==> r.value == db.users[userId].password
  {
    if userId !in db.users then Throws else Ok(db.users[userId].password)
  }

  /**
   * `getUserRecoverCode`: the decrypted recovery code; throws when the user
   * is missing or has no (or an empty) code.
   */
  function GetUserRecoverCode(db: Database, userId: Id, decrypt: string -> string): (r: Try<string>)
    reads db
    ensures r.Ok? <==> userId in db.users && Truthy(db.users[userId].recoveryCode)
    ensures r.Ok? ==> r.value == decrypt(db.users[userId].recoveryCode.value)
  {
    if userId !in db.users || !Truthy(db.users[userId].recoveryCode) then Throws
    else Ok(decrypt(db.users[userId].recoveryCode.value))
  }

  /** `resetUserRecoveryCode`: stores the encrypted new code and returns the plain one. */
  method ResetUserRecoveryCode(db: Database, userId: Id, recoveryCode: string, encrypt: string -> string)
    returns (r: Try<string>)
    requires db.Valid()
    modifies db`users
    ensures db.Valid()
    ensures r.Ok? <==> userId in old(db.users)
    ensures r.Ok? ==> r.value == recoveryCode
    ensures r.Ok? ==> db.users == old(db.users)[userId := old(db.users)[userId].(recoveryCode := Some(encrypt(recoveryCode)))]
    ensures r.Throws? ==> db.users == old(db.users)
  {
    if userId !in db.users {
      return Throws;
    }
    db.users := db.users[userId := db.users[userId].(recoveryCode := Some(encrypt(recoveryCode)))];
    r := Ok(recoveryCode);
  }

  /** `getUserFromEmail`: the view of the one user with this email, if any. */
  function GetUserFromEmail(db: Database, email: string): (r: Option<User>)
    reads db
    requires db.Valid()
    ensures r.None? <==> !EmailTaken(db.users, email)
    ensures r.Some? ==> r.value.id in db.users && r.value == ViewOf(db.users[r.value.id])
                        && r.value.email == email
  {
    if EmailTaken(db.users, email) then
      var id :| id in db.users && db.users[id].email == email;
      Some(ViewOf(db.users[id]))
    else None
  }
}
