/** The admin session endpoints (src/redux/features/admin/adminAuthApi.ts) and
    the effect each one's completion has on the admin session slice. */
module AdminAuthApi {
  import opened Wrappers
  import opened Js
  import opened Http
  import AdminAuthSlice

  /** `registerAdmin` receives an object whose fields are given as a map;
      `loggedInAdmin` receives the credentials object it forwards as is. */
  datatype Call = RegisterAdmin(input: map<string, Json>) | LoggedInAdmin(data: Json) | LogoutAdmin

  /** How a mutation settled: the response body, or a rejection. */
  datatype Outcome = Fulfilled(data: Value) | Rejected(error: Value)

  const RegisterFields: set<string> := {"fullName", "email", "password"}

  /** `{fullName: data.fullName, email: data.email, password: data.password}`:
      only those three fields are copied, and one that is missing from the input
      is `undefined` and so not serialised. */
  function RegisterBody(input: map<string, Json>): (m: map<string, Json>)
    ensures m.Keys == input.Keys * RegisterFields
    ensures forall k :: k in m ==> m[k] == input[k]
  {
    map k | k in input && k in RegisterFields :: input[k]
  }

  function RequestFor(c: Call): (r: Request)
    ensures r.verb == POST && r.credentials == Include
    ensures c.LogoutAdmin? <==> r.body.None?
    ensures c.LoggedInAdmin? ==> r.body == Some(c.data)
    ensures c.RegisterAdmin? ==> r.url == "/admin/auth/register" && r.body == Some(JObj(RegisterBody(c.input)))
    ensures c.LoggedInAdmin? ==> r.url == "/admin/auth/login"
    ensures c.LogoutAdmin? ==> r.url == "/admin/auth/logout"
  {
    match c
    case RegisterAdmin(input) => Request(POST, "/admin/auth/register", Some(JObj(RegisterBody(input))), Include)
    case LoggedInAdmin(data) => Request(POST, "/admin/auth/login", Some(data), Include)
    case LogoutAdmin => Request(POST, "/admin/auth/logout", None, Include)
  }

  /** Each endpoint has its own path, so a request tells which endpoint was
      called and with what: the login credentials, or the three copied
      registration fields (other input fields never reach the request). */
  lemma RequestDeterminesCall(c1: Call, c2: Call)
    requires RequestFor(c1) == RequestFor(c2)
    ensures c1.RegisterAdmin? <==> c2.RegisterAdmin?
    ensures c1.RegisterAdmin? ==> RegisterBody(c1.input) == RegisterBody(c2.input)
    ensures !c1.RegisterAdmin? ==> c1 == c2
  {
    if c1.RegisterAdmin? && c2.RegisterAdmin? {
      assert RequestFor(c1).body.value.fields == RegisterBody(c1.input);
    }
  }

  /** The action `onQueryStarted` dispatches, if any. Only a fulfilled login
      dispatches: `adminLoggedIn({admin: result.data.data})`. A response body of
      `null` makes that read throw inside the `try`, so nothing is dispatched. */
  function Dispatched(c: Call, o: Outcome): (r: Option<AdminAuthSlice.Action>)
    ensures r.Some? ==> c.LoggedInAdmin? && o.Fulfilled?
    ensures r.Some? ==> r.value == AdminAuthSlice.AdminLoggedIn(OptGet(o.data, "data"))
    ensures r.Some? <==> c.LoggedInAdmin? && o.Fulfilled? && !Nullish(o.data)
  {
    match c
    case LoggedInAdmin(_) =>
      if o.Fulfilled? then
        match Get(o.data, "data")
        case Got(admin) => Some(AdminAuthSlice.AdminLoggedIn(admin))
        case TypeError => None
      else None
    case _ => None
  }

  /** The admin session after a call settles. */
  function After(s: AdminAuthSlice.State, c: Call, o: Outcome): AdminAuthSlice.State {
    var d := Dispatched(c, o);
    if d.Some? then AdminAuthSlice.Reduce(s, d.value) else s
  }

  /** A successful login with body `{data: admin}` stores exactly `admin`. */
  lemma LoginStoresReturnedAdmin(s: AdminAuthSlice.State, creds: Json, admin: Json)
    ensures After(s, LoggedInAdmin(creds), Fulfilled(Obj(map["data" := admin]))).admin == Def(admin)
  {
  }

  /** A failed login, any registration outcome and any logout outcome leave the
      admin session as it was: `logoutAdmin` declares no side effect, so it does
      not clear the session. */
  lemma OnlyLoginSuccessChangesSession(s: AdminAuthSlice.State, c: Call, o: Outcome)
    requires !(c.LoggedInAdmin? && o.Fulfilled?)
    ensures After(s, c, o) == s
  {
  }

  /** A registration request never carries fields beyond the three it copies. */
  lemma RegisterDropsExtraFields(input: map<string, Json>, extra: string, v: Json)
    requires extra !in RegisterFields
    ensures RequestFor(RegisterAdmin(input[extra := v])) == RequestFor(RegisterAdmin(input))
  {
    assert RegisterBody(input[extra := v]) == RegisterBody(input);
  }
}
