/** The two facts the authentication hook exposes to every screen and hook:
    who is signed in, and whether they are an administrator. Sessions
    themselves are not modelled. */
module Auth {
  import opened Wrappers

  /** The signed-in user's id (if any) and the `isAdmin` flag. */
  datatype Session = Session(user: Option<string>, isAdmin: bool)

  /** A signed-in administrator: what every admin-only action demands. */
  predicate CanManage(s: Session) {
    s.user.Some? && s.isAdmin
  }
}
