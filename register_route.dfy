/**
 * `POST /api/auth/register`: inserts a user holding the hash of the given
 * password. Password hashing is outside this model and comes in as a
 * function; the id the database assigns comes in as `newId`.
 */
module RegisterRoute {
  import opened Common
  import opened Store

  /** The JSON body's three fields; `None` is a field that is absent or null. */
  datatype RegisterBody = RegisterBody(email: Option<string>, password: Option<string>, name: Option<string>)

  datatype RegisterResponse =
    | Registered(id: Id, email: string, name: string)   // status 201, no password
    | RegisterFailed(status: nat, message: string)

  /**
   * The handler: an unparsable body and a failed insert are the catch-all
   * 500; a missing field and an email already held are 400s that write
   * nothing; otherwise exactly one row is inserted.
   */
  method Register(db: Database, body: Try<RegisterBody>, newId: Id, hashPassword: string -> string)
    returns (r: RegisterResponse)
    requires db.Valid()
    modifies db`users
    ensures db.Valid()
    ensures body.Throws? ==> r == RegisterFailed(500, "An error occurred during registration")
    ensures body.Ok? && (!Truthy(body.value.email) || !Truthy(body.value.password) || !Truthy(body.value.name)) ==>
              r == RegisterFailed(400, "Email, password, and name are required")
    ensures body.Ok? && Truthy(body.value.email) && Truthy(body.value.password) && Truthy(body.value.name) ==>
              var email := body.value.email.value;
              && (EmailTaken(old(db.users), email) ==> r == RegisterFailed(400, "User with this email already exists"))
              && (!EmailTaken(old(db.users), email) && newId in old(db.users) ==>
                    r == RegisterFailed(500, "An error occurred during registration"))
    ensures r.RegisterFailed? ==> db.users == old(db.users)
    ensures r.Registered? ==>
              && body.Ok? && r == Registered(newId, body.value.email.value, body.value.name.value)
              && newId !in old(db.users) && !EmailTaken(old(db.users), r.email)
              && db.users == old(db.users)[newId := UserRow(newId, r.email, r.name,
                                                            hashPassword(body.value.password.value), None, None)]
    ensures r.Registered? <==> body.Ok? && Truthy(body.value.email) && Truthy(body.value.password)
                               && Truthy(body.value.name) && !EmailTaken(old(db.users), body.value.email.value)
                               && newId !in old(db.users)
  {
    if body.Throws? {
      return RegisterFailed(500, "An error occurred during registration");
    }
    var fields := body.value;
    if !Truthy(fields.email) || !Truthy(fields.password) || !Truthy(fields.name) {
      return RegisterFailed(400, "Email, password, and name are required");
    }
    var email, password, name := fields.email.value, fields.password.value, fields.name.value;
    if EmailTaken(db.users, email) {
      return RegisterFailed(400, "User with this email already exists");
    }
    var hashedPassword := hashPassword(password);
    if newId in db.users {
      return RegisterFailed(500, "An error occurred during registration");
    }
    db.users := db.users[newId := UserRow(newId, email, name, hashedPassword, None, None)];
    r := Registered(newId, email, name);
  }
}
