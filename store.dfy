/**
 * The persistent record store behind the credential code: one table per
 * record kind, each keyed by the row's id. Only the parts of the database
 * that the credential-lifecycle code reads or writes are kept.
 */
module Store {
  import opened Common

  type Id = string

  datatype UserRow = UserRow(
    id: Id,
    email: string,                 // unique across the table
    name: string,
    password: string,              // the password hash, never the plaintext
    emailVerified: Option<bool>,   // nullable column
    recoveryCode: Option<string>)  // encrypted recovery code, nullable

  datatype SessionRow = SessionRow(id: Id, userId: Id, expiresAt: Millis)

  datatype PasswordResetRow = PasswordResetRow(
    id: Id, userId: Id, email: string, code: string, expiresAt: Millis, emailVerified: bool)

  datatype VerificationRequestRow = VerificationRequestRow(
    id: Id, userId: Id, code: string, email: string, expiresAt: Millis)

  datatype ListRow = ListRow(id: Id, title: string, description: Option<string>, creatorId: Id)

  /** Some user row holds this email address. */
  predicate EmailTaken(users: map<Id, UserRow>, email: string)
  {
    exists id :: id in users && users[id].email == email
  }

  /** The unique-email constraint of the user table. */
  ghost predicate EmailsUnique(users: map<Id, UserRow>)
  {
    forall a, b :: a in users && b in users && users[a].email == users[b].email ==> a == b
  }

  /** `user.findUnique({ where: { email } })`: the id of the one user holding the email. */
  function FindUserByEmail(users: map<Id, UserRow>, email: string): (r: Option<Id>)
    requires EmailsUnique(users)
    ensures r.None? <==> !EmailTaken(users, email)
    ensures r.Some? ==> r.value in users && users[r.value].email == email
    ensures r.Some? ==> forall id :: id in users && users[id].email == email ==> id == r.value
  {
    if EmailTaken(users, email) then
      var id :| id in users && users[id].email == email;
      Some(id)
    else None
  }

  /** `user.findFirst({ where: { name } })` finds a row. */
  predicate NameTaken(users: map<Id, UserRow>, name: string)
  {
    exists id :: id in users && users[id].name == name
  }

  class Database {
    var users: map<Id, UserRow>
    var sessions: map<Id, SessionRow>
    var resetSessions: map<Id, PasswordResetRow>
    var verificationRequests: map<Id, VerificationRequestRow>
    var lists: map<Id, ListRow>

    /**
     * What the database enforces: every row is stored under its own id, user
     * emails are unique, and every foreign key names an existing user.
     */
    ghost predicate Valid()
      reads this
    {
      && (forall id :: id in users ==> users[id].id == id)
      && EmailsUnique(users)
      && (forall id :: id in sessions ==> sessions[id].id == id && sessions[id].userId in users)
      && (forall id :: id in resetSessions ==>
            resetSessions[id].id == id && resetSessions[id].userId in users)
      && (forall id :: id in verificationRequests ==>
            verificationRequests[id].id == id && verificationRequests[id].userId in users)
      && (forall id :: id in lists ==> lists[id].id == id && lists[id].creatorId in users)
    }

    constructor ()
      ensures Valid()
      ensures users == map[] && sessions == map[] && resetSessions == map[]
      ensures verificationRequests == map[] && lists == map[]
    {
      users, sessions, resetSessions, verificationRequests, lists := map[], map[], map[], map[], map[];
    }
  }

  /** `session.deleteMany({ where: { userId } })`. */
  function SessionsWithoutUser(m: map<Id, SessionRow>, userId: Id): (r: map<Id, SessionRow>)
    ensures forall id :: id in r <==> id in m && m[id].userId != userId
    ensures forall id :: id in r ==> r[id] == m[id]
  {
    map id | id in m && m[id].userId != userId :: m[id]
  }

  /** `passwordResetSession.deleteMany({ where: { userId } })`. */
  function ResetSessionsWithoutUser(m: map<Id, PasswordResetRow>, userId: Id): (r: map<Id, PasswordResetRow>)
    ensures forall id :: id in r <==> id in m && m[id].userId != userId
    ensures forall id :: id in r ==> r[id] == m[id]
  {
    map id | id in m && m[id].userId != userId :: m[id]
  }

  /** `emailVerificationRequest.deleteMany({ where: { userId } })`. */
  function RequestsWithoutUser(m: map<Id, VerificationRequestRow>, userId: Id): (r: map<Id, VerificationRequestRow>)
    ensures forall id :: id in r <==> id in m && m[id].userId != userId
    ensures forall id :: id in r ==> r[id] == m[id]
  {
    map id | id in m && m[id].userId != userId :: m[id]
  }
}
