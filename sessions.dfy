/** The session the authentication layer hands to the API routes. */
module Sessions {
  import opened Wrappers

  /** `session.user`: the user id, email and the role copied in by the
      session callback. */
  datatype SessionUser = SessionUser(id: string, email: Option<string>, role: Option<string>)

  /** `await auth()`: `None` is a missing session or a session without a
      user, which every route treats alike. */
  type Session = Option<SessionUser>
}
