/** The profile page: its load and its `updateProfile` action. */
module ProfileRoute {
  import opened Common
  import opened Store
  import opened Users
  import opened Http
  import opened Sessions

  datatype ProfilePage = RedirectToLogin | ProfileOf(user: User)

  /** What the action answers: `{ success, message }`. */
  datatype ProfileOutcome = ProfileOutcome(success: bool, message: string)

  /** `load`: the signed-in user, or a redirect to /login. */
  function Load(locals: Locals): (r: ProfilePage)
    ensures r.RedirectToLogin? <==> locals.user.None?
    ensures r.ProfileOf? ==> r.user == locals.user.value
  {
    if locals.user.None? then RedirectToLogin else ProfileOf(locals.user.value)
  }

  /**
   * `updateProfile`: with a signed-in user and both fields non-empty, sets
   * the user's name and email and marks the email verified, with no code
   * check. A file field counts as the text "[object File]". An update that
   * throws (an email another user holds) answers "Failed to update profile".
   */
  method UpdateProfile(db: Database, locals: Locals, username: FormField, email: FormField)
    returns (r: ProfileOutcome)
    requires db.Valid()
    modifies db`users
    ensures db.Valid()
    ensures locals.user.None? ==> r == ProfileOutcome(false, "Not authenticated")
    ensures locals.user.Some? && (!Truthy(ToStringOrNone(username)) || !Truthy(ToStringOrNone(email))) ==>
              r == ProfileOutcome(false, "Username and email are required")
    ensures locals.user.Some? && Truthy(ToStringOrNone(username)) && Truthy(ToStringOrNone(email)) ==>
              var userId := locals.user.value.id;
              var newEmail := ToStringOrNone(email).value;
              && (CanTakeEmail(old(db.users), userId, newEmail) ==>
                    && r == ProfileOutcome(true, "Profile updated successfully")
                    && db.users == old(db.users)[userId := old(db.users)[userId].(
                                      email := newEmail, emailVerified := Some(true),
                                      name := ToStringOrNone(username).value)])
              && (!CanTakeEmail(old(db.users), userId, newEmail) ==>
                    r == ProfileOutcome(false, "Failed to update profile"))
    ensures !r.success ==> db.users == old(db.users)
  {
    if locals.user.None? {
      return ProfileOutcome(false, "Not authenticated");
    }
    var name := ToStringOrNone(username);
    var address := ToStringOrNone(email);
    if !Truthy(name) || !Truthy(address) {
      return ProfileOutcome(false, "Username and email are required");
    }
    var updated := UpdateUserEmailAndSetEmailAsVerified(db, locals.user.value.id, address.value, name);
    if !updated {
      return ProfileOutcome(false, "Failed to update profile");
    }
    r := ProfileOutcome(true, "Profile updated successfully");
  }
}
