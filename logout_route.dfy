/** `POST /api/logout`: ends the request's session and clears its cookie. */
module LogoutRoute {
  import opened Common
  import opened Store
  import opened Http
  import opened Sessions

  /**
   * The handler. `completed` is false when the session delete throws and
   * the exception escapes; otherwise the answer is `{ success: true }`.
   * Without a session nothing changes; with one, exactly its row is deleted
   * and the session cookie is overwritten with an empty, expired value.
   */
  method Logout(db: Database, cookies: Cookies, locals: Locals) returns (completed: bool)
    requires db.Valid()
    modifies db`sessions, cookies
    ensures db.Valid()
    ensures locals.session.None? ==> completed && db.sessions == old(db.sessions) && cookies.jar == old(cookies.jar)
    ensures locals.session.Some? ==>
              var id := locals.session.value.id;
              && db.sessions == old(db.sessions) - {id}
              && (completed <==> id in old(db.sessions))
              && (completed ==> cookies.jar == old(cookies.jar)[SessionCookie := Cleared])
              && (!completed ==> cookies.jar == old(cookies.jar))
  {
    if locals.session.None? {
      return true;
    }
    completed := InvalidateSession(db, locals.session.value.id);
    if !completed {
      return;
    }
    cookies.Delete(SessionCookie);
  }
}
