/**
 * `POST /api/auth/login`: checks an email and password against the user
 * table and answers with a signed token. The password comparison and the
 * token signing are outside this model and come in as functions; either may
 * throw. Nothing is written.
 */
module LoginRoute {
  import opened Common
  import opened Store

  /** The JSON body's two fields; `None` is a field that is absent or null. */
  datatype LoginBody = LoginBody(email: Option<string>, password: Option<string>)

  /** The user part of the answer: id, email and name, never the password. */
  datatype UserSummary = UserSummary(id: Id, email: string, name: string)

  datatype LoginResponse =
    | LoggedIn(token: string, user: UserSummary)
    | LoginFailed(status: nat, message: string)

  const InvalidCredentials: LoginResponse := LoginFailed(401, "Invalid email or password")

  /**
   * The handler. A body that cannot be parsed, a comparison or a signing
   * that throws all end in the catch-all 500; missing fields are a 400
   * before any lookup; an unknown email and a wrong password give the same
   * 401.
   */
  function Login(db: Database, body: Try<LoginBody>,
                 comparePassword: (string, string) -> Try<bool>, generateToken: Id -> Try<string>)
    : (r: LoginResponse)
    reads db
    requires db.Valid()
    ensures body.Throws? ==> r == LoginFailed(500, "An error occurred during login")
    ensures body.Ok? && (!Truthy(body.value.email) || !Truthy(body.value.password)) ==>
              r == LoginFailed(400, "Email and password are required")
    ensures body.Ok? && Truthy(body.value.email) && Truthy(body.value.password) ==>
              var email := body.value.email.value;
              var password := body.value.password.value;
              && (!EmailTaken(db.users, email) ==> r == InvalidCredentials)
              && (EmailTaken(db.users, email) ==>
                    var id := FindUserByEmail(db.users, email).value;
                    var row := db.users[id];
                    var matched := comparePassword(password, row.password);
                    && (matched.Throws? ==> r == LoginFailed(500, "An error occurred during login"))
                    && (matched == Ok(false) ==> r == InvalidCredentials)
                    && (matched == Ok(true) && generateToken(id).Throws? ==>
                          r == LoginFailed(500, "An error occurred during login"))
                    && (matched == Ok(true) && generateToken(id).Ok? ==>
                          r == LoggedIn(generateToken(id).value, UserSummary(id, row.email, row.name))))
    ensures r.LoggedIn? ==> r.user.id in db.users && r.user.email == body.value.email.value
                            && comparePassword(body.value.password.value, db.users[r.user.id].password) == Ok(true)
                            && generateToken(r.user.id) == Ok(r.token)
  {
    if body.Throws? then LoginFailed(500, "An error occurred during login")
    else if !Truthy(body.value.email) || !Truthy(body.value.password) then
      LoginFailed(400, "Email and password are required")
    else
      var email := body.value.email.value;
      match FindUserByEmail(db.users, email)
      case None => InvalidCredentials
      case Some(id) =>
        var row := db.users[id];
        match comparePassword(body.value.password.value, row.password)
        case Throws => LoginFailed(500, "An error occurred during login")
        case Ok(matched) =>
          if !matched then InvalidCredentials
          else match generateToken(id)
            case Throws => LoginFailed(500, "An error occurred during login")
            case Ok(token) => LoggedIn(token, UserSummary(id, row.email, row.name))
  }
}
