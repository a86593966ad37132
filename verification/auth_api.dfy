/** The user session endpoints (src/redux/features/auth/authApi.ts). The user
    session slice itself is not part of this model; only the action dispatched
    to it is. */
module AuthApi {
  import opened Wrappers
  import opened Js
  import opened Http

  /** `registerUser` and `loggedInUser` forward their argument as the body. */
  datatype Call = RegisterUser(data: Json) | LoggedInUser(data: Json) | LogoutUser

  datatype Outcome = Fulfilled(data: Value) | Rejected(error: Value)

  /** The one action these endpoints can dispatch: `userLoggedIn({user})`. */
  datatype Dispatch = UserLoggedIn(user: Value)

  function RequestFor(c: Call): (r: Request)
    ensures r.verb == POST && r.credentials == Include
    ensures c.LogoutUser? <==> r.body.None?
    ensures !c.LogoutUser? ==> r.body == Some(c.data)
    ensures c.RegisterUser? ==> r.url == "/auth/register"
    ensures c.LoggedInUser? ==> r.url == "/auth/login"
    ensures c.LogoutUser? ==> r.url == "/auth/logout"
  {
    match c
    case RegisterUser(data) => Request(POST, "/auth/register", Some(data), Include)
    case LoggedInUser(data) => Request(POST, "/auth/login", Some(data), Include)
    case LogoutUser => Request(POST, "/auth/logout", None, Include)
  }

  /** Each endpoint has its own path, so a request identifies its call. */
  lemma RequestDeterminesCall(c1: Call, c2: Call)
    ensures RequestFor(c1) == RequestFor(c2) ==> c1 == c2
  {
    if RequestFor(c1) == RequestFor(c2) && !c1.LogoutUser? && !c2.LogoutUser? {
      assert RequestFor(c1).url[6] == RequestFor(c2).url[6];
    }
  }

  /** Only a fulfilled login dispatches, with `user: result.data.data`; a `null`
      response body makes that read throw inside the `try`, so nothing is
      dispatched. Registration only awaits its result and logs a failure. */
  function Dispatched(c: Call, o: Outcome): (r: Option<Dispatch>)
    ensures r.Some? ==> c.LoggedInUser? && o.Fulfilled?
    ensures r.Some? ==> r.value.user == OptGet(o.data, "data")
    ensures r.Some? <==> c.LoggedInUser? && o.Fulfilled? && !Nullish(o.data)
  {
    match c
    case LoggedInUser(_) =>
      if o.Fulfilled? then
        match Get(o.data, "data")
        case Got(user) => Some(UserLoggedIn(user))
        case TypeError => None
      else None
    case _ => None
  }

  lemma LoginDispatchesReturnedUser(creds: Json, user: Json)
    ensures Dispatched(LoggedInUser(creds), Fulfilled(Obj(map["data" := user]))) == Some(UserLoggedIn(Def(user)))
  {
  }

  /** Registration and logout dispatch nothing, whether they succeed or fail. */
  lemma RegisterAndLogoutDispatchNothing(data: Json, o: Outcome)
    ensures Dispatched(RegisterUser(data), o).None?
    ensures Dispatched(LogoutUser, o).None?
  {
  }
}
