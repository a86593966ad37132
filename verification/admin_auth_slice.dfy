/** The admin session slice (src/redux/features/admin/adminAuthSlice.ts): at
    most one logged-in admin, set by `adminLoggedIn` and cleared by `adminLogout`. */
module AdminAuthSlice {
  import opened Js

  /** `admin` is `null` when nobody is logged in. It holds whatever the login
      response carried, which may be `undefined` when that response had no
      `data` field. */
  datatype State = State(admin: Value)

  const Initial: State := State(Def(JNull))

  predicate LoggedOut(s: State) {
    s.admin == Def(JNull)
  }

  datatype Action = AdminLoggedIn(admin: Value) | AdminLogout

  function Reduce(s: State, a: Action): (r: State)
    ensures a.AdminLoggedIn? ==> r.admin == a.admin
    ensures a.AdminLogout? ==> LoggedOut(r)
  {
    match a
    case AdminLoggedIn(admin) => State(admin)
    case AdminLogout => State(Def(JNull))
  }

  lemma InitialIsLoggedOut()
    ensures LoggedOut(Initial)
  {
  }

  /** Logging in overwrites: the resulting state does not depend on who, if
      anyone, was logged in before. */
  lemma LoginOverwrites(s1: State, s2: State, admin: Value)
    ensures Reduce(s1, AdminLoggedIn(admin)) == Reduce(s2, AdminLoggedIn(admin))
  {
  }

  lemma LogoutIdempotent(s: State)
    ensures Reduce(Reduce(s, AdminLogout), AdminLogout) == Reduce(s, AdminLogout)
  {
  }

  /** A login followed by a logout returns to the initial state, from any state. */
  lemma LoginThenLogout(s: State, admin: Value)
    ensures Reduce(Reduce(s, AdminLoggedIn(admin)), AdminLogout) == Initial
  {
  }
}
