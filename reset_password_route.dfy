/**
 * The reset-password page: its load and its default action, which sets a
 * new password once the reset session's code has been verified.
 */
module ResetPasswordRoute {
  import opened Common
  import opened Store
  import opened Users
  import opened Http
  import opened PasswordReset

  /**
   * The form checks of the action, in their order: the message of the first
   * check that fails, or nothing when the new password is accepted.
   */
  function CheckNewPassword(password: FormField, confirmPassword: FormField): (error: Option<string>)
    ensures error.None? <==> password.Text? && confirmPassword.Text? && |password.text| >= 8
                             && password.text == confirmPassword.text
    ensures !password.Text? || !confirmPassword.Text? ==> error == Some("Invalid or missing fields")
    ensures password == Text("") && confirmPassword.Text? ==> error == Some("Enter your new password")
    ensures password.Text? && confirmPassword.Text? && 0 < |password.text| < 8 ==>
              error == Some("Password must be at least 8 characters long")
    ensures password.Text? && confirmPassword.Text? && |password.text| >= 8 && password.text != confirmPassword.text ==>
              error == Some("Passwords do not match")
  {
    if !password.Text? || !confirmPassword.Text? then Some("Invalid or missing fields")
    else if password.text == "" then Some("Enter your new password")
    else if |password.text| < 8 then Some("Password must be at least 8 characters long")
    else if password.text != confirmPassword.text then Some("Passwords do not match")
    else None
  }

  /**
   * `load`: to /forgot-password without a live reset session, to
   * /verify-email while its code is unverified, else the page for its email.
   */
  method Load(db: Database, cookies: Cookies, now: Millis, hashToken: string -> string)
    returns (r: PageResult)
    requires db.Valid()
    modifies db`resetSessions, cookies
    ensures db.Valid()
    ensures var reset := old(ResetRequestLookup(db, cookies, now, hashToken));
            && db.resetSessions == old(ResetsAfterRequest(db, cookies, now, hashToken))
            && cookies.jar == JarAfterRequest(old(cookies.jar), reset.ResetFound?)
            && (reset.NoReset? ==> r == Redirect("/forgot-password"))
            && (reset.ResetFound? && !reset.session.emailVerified ==> r == Redirect("/verify-email"))
            && (reset.ResetFound? && reset.session.emailVerified ==> r == ResetData(reset.session.email))
  {
    var reset := ValidatePasswordResetSessionRequest(db, cookies, now, hashToken);
    if reset.NoReset? {
      return Redirect("/forgot-password");
    }
    if !reset.session.emailVerified {
      return Redirect("/verify-email");
    }
    r := ResetData(reset.session.email);
  }

  /**
   * The action: 401 without a live reset session and 403 while its code is
   * unverified, both before the form is read; then the form checks. On
   * success the user's password hash is replaced, all of the user's reset
   * sessions are deleted and the cookie is cleared. The user's login
   * sessions are left as they are.
   */
  method ResetPassword(db: Database, cookies: Cookies, password: FormField, confirmPassword: FormField,
                       now: Millis, hashToken: string -> string, hashPassword: string -> string)
    returns (r: PageResult)
    requires db.Valid()
    modifies db`users, db`resetSessions, cookies
    ensures db.Valid()
    ensures db.sessions == old(db.sessions)
    ensures var reset := old(ResetRequestLookup(db, cookies, now, hashToken));
            var resets := old(ResetsAfterRequest(db, cookies, now, hashToken));
            var jar := JarAfterRequest(old(cookies.jar), reset.ResetFound?);
            && (reset.NoReset? ==> r == Failure(401, "Not authenticated"))
            && (reset.ResetFound? && !reset.session.emailVerified ==> r == Failure(403, "Email not verified"))
            && (reset.ResetFound? && reset.session.emailVerified && CheckNewPassword(password, confirmPassword).Some? ==>
                  r == Failure(400, CheckNewPassword(password, confirmPassword).value))
            && (!r.Redirect? ==> db.users == old(db.users) && db.resetSessions == resets && cookies.jar == jar)
            && (r.Redirect? <==> reset.ResetFound? && reset.session.emailVerified
                                 && CheckNewPassword(password, confirmPassword).None?)
            && (r.Redirect? ==>
                  var userId := reset.user.id;
                  && r == Redirect("/login?passwordReset=true")
                  && db.users == old(db.users)[userId := old(db.users)[userId].(password := hashPassword(password.text))]
                  && db.resetSessions == ResetSessionsWithoutUser(resets, userId)
                  && cookies.jar == jar[ResetCookie := Cleared])
  {
    ghost var resets := ResetsAfterRequest(db, cookies, now, hashToken);
    var reset := ValidatePasswordResetSessionRequest(db, cookies, now, hashToken);
    assert db.resetSessions == resets;
    if reset.NoReset? {
      return Failure(401, "Not authenticated");
    }
    if !reset.session.emailVerified {
      return Failure(403, "Email not verified");
    }
    var error := CheckNewPassword(password, confirmPassword);
    if error.Some? {
      return Failure(400, error.value);
    }
    var updated := UpdateUserPassword(db, reset.user.id, password.text, hashPassword);
    InvalidateUserPasswordResetSessions(db, reset.user.id);
    DeletePasswordResetSessionTokenCookie(cookies);
    r := Redirect("/login?passwordReset=true");
  }
}
