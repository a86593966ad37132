/** The admin user endpoints (src/redux/features/admin/adminUsersApi.ts): the
    request each call issues, the `{data: ...}` unwrapping of responses, and the
    cache tags each endpoint declares. */
module AdminUsersApi {
  import opened Wrappers
  import opened Js
  import opened Text
  import opened Entities
  import opened Http

  const TagType: string := "AdminUsers"

  /** The list-level tag `"AdminUsers"`. */
  const ListTag: Tag := TypeTag(TagType)

  /** The per-user tag `{type: "AdminUsers", id}`. */
  function UserTag(id: int): Tag {
    IdTag(TagType, id)
  }

  /** Arguments of `listUsers`; every field may be left out. */
  datatype ListQuery = ListQuery(q: Option<string>, role: Option<Role>, page: Option<int>, limit: Option<int>)

  datatype CreateUserRequest = CreateUserRequest(fullName: string, email: string, password: string, role: Role)

  /** A partial update: fields left out are not sent. */
  datatype UpdateUserRequest = UpdateUserRequest(
    fullName: Option<string>,
    email: Option<string>,
    password: Option<string>,
    role: Option<Role>)

  /** One call of an admin user endpoint, with its arguments. */
  datatype Call =
    | ListUsers(query: ListQuery)
    | GetUser(id: int)
    | CreateUser(create: CreateUserRequest)
    | UpdateUser(id: int, update: UpdateUserRequest)
    | UpdateUserRole(id: int, role: Role)
    | UpdateUserPassword(id: int, password: string)
    | DeleteUser(id: int)

  /** `listUsers` and `getUser` are queries; the rest are mutations. */
  predicate IsQuery(c: Call) {
    c.ListUsers? || c.GetUser?
  }

  // ---------------------------------------------------------------------------
  // The listUsers query string

  /** A string argument is appended only when truthy, i.e. present and non-empty. */
  predicate PresentText(o: Option<string>) {
    o.Some? && o.value != ""
  }

  /** A number argument is appended only when truthy, i.e. present and not 0. */
  predicate PresentNumber(o: Option<int>) {
    o.Some? && o.value != 0
  }

  /** Position of a parameter key in the fixed order q, role, page, limit. */
  function KeyRank(k: string): int {
    if k == "q" then 0 else if k == "role" then 1 else if k == "page" then 2 else if k == "limit" then 3 else 4
  }

  function TextParam(key: string, o: Option<string>): seq<(string, string)> {
    if PresentText(o) then [(key, o.value)] else []
  }

  function RoleParam(o: Option<Role>): seq<(string, string)> {
    if o.Some? then [("role", RoleName(o.value))] else []
  }

  function NumberParam(key: string, o: Option<int>): seq<(string, string)> {
    if PresentNumber(o) then [(key, IntToString(o.value))] else []
  }

  /** The key/value pairs `listUsers` appends to its `URLSearchParams`. */
  function SearchParams(p: ListQuery): (r: seq<(string, string)>)
    ensures |r| <= 4
    ensures forall i :: 0 <= i < |r| ==> KeyRank(r[i].0) < 4
    ensures forall i, j :: 0 <= i < j < |r| ==> KeyRank(r[i].0) < KeyRank(r[j].0)
  {
    TextParam("q", p.q)
    + RoleParam(p.role)
    + NumberParam("page", p.page)
    + NumberParam("limit", p.limit)
  }

  /** `key=value` pairs joined by `&`. Percent-encoding is not modelled. */
  function EncodeParams(ps: seq<(string, string)>): string
    decreases |ps|
  {
    if |ps| == 0 then ""
    else ps[0].0 + "=" + ps[0].1 + (if |ps| == 1 then "" else "&" + EncodeParams(ps[1..]))
  }

  /** The value of the first pair with key `k`, as `URLSearchParams.get` reads it. */
  function Lookup(ps: seq<(string, string)>, k: string): (r: Option<string>)
    ensures r.Some? ==> exists i :: 0 <= i < |ps| && ps[i] == (k, r.value)
    decreases |ps|
  {
    if |ps| == 0 then None
    else if ps[0].0 == k then Some(ps[0].1)
    else Lookup(ps[1..], k)
  }

  function ParseRole(s: string): Option<Role> {
    if s == "admin" then Some(Admin) else if s == "user" then Some(User) else None
  }

  function ParseNumber(o: Option<string>): Option<int> {
    if o.Some? then ParseInt(o.value) else None
  }

  /** How a server reads the arguments back out of the pairs. */
  function ParseListParams(ps: seq<(string, string)>): ListQuery {
    var role := Lookup(ps, "role");
    ListQuery(
      Lookup(ps, "q"),
      if role.Some? then ParseRole(role.value) else None,
      ParseNumber(Lookup(ps, "page")),
      ParseNumber(Lookup(ps, "limit")))
  }

  /** The arguments with every falsy one dropped: what reaches the server. */
  function Normalized(p: ListQuery): ListQuery {
    ListQuery(
      if PresentText(p.q) then p.q else None,
      p.role,
      if PresentNumber(p.page) then p.page else None,
      if PresentNumber(p.limit) then p.limit else None)
  }

  lemma {:induction false} LookupAppend(a: seq<(string, string)>, b: seq<(string, string)>, k: string)
    ensures Lookup(a + b, k) == if Lookup(a, k).Some? then Lookup(a, k) else Lookup(b, k)
    decreases |a|
  {
    if |a| == 0 {
      assert a + b == b;
    } else if a[0].0 == k {
      assert (a + b)[0] == a[0];
    } else {
      assert (a + b)[1..] == a[1..] + b;
      LookupAppend(a[1..], b, k);
    }
  }

  lemma SearchParamsSplit(p: ListQuery)
    ensures SearchParams(p) == TextParam("q", p.q)
      + (RoleParam(p.role) + (NumberParam("page", p.page) + NumberParam("limit", p.limit)))
  {
  }

  /** The q parameter comes first, so it is read from its own part. */
  lemma {:induction false} LookupQ(p: ListQuery)
    ensures Lookup(SearchParams(p), "q") == if PresentText(p.q) then p.q else None
  {
    var rest := RoleParam(p.role) + (NumberParam("page", p.page) + NumberParam("limit", p.limit));
    SearchParamsSplit(p);
    LookupAppend(TextParam("q", p.q), rest, "q");
    LookupAppend(RoleParam(p.role), NumberParam("page", p.page) + NumberParam("limit", p.limit), "q");
    LookupAppend(NumberParam("page", p.page), NumberParam("limit", p.limit), "q");
  }

  lemma {:induction false} LookupRole(p: ListQuery)
    ensures Lookup(SearchParams(p), "role") == if p.role.Some? then Some(RoleName(p.role.value)) else None
  {
    var rest := RoleParam(p.role) + (NumberParam("page", p.page) + NumberParam("limit", p.limit));
    SearchParamsSplit(p);
    LookupAppend(TextParam("q", p.q), rest, "role");
    LookupAppend(RoleParam(p.role), NumberParam("page", p.page) + NumberParam("limit", p.limit), "role");
    LookupAppend(NumberParam("page", p.page), NumberParam("limit", p.limit), "role");
  }

  lemma {:induction false} LookupPage(p: ListQuery)
    ensures Lookup(SearchParams(p), "page") == if PresentNumber(p.page) then Some(IntToString(p.page.value)) else None
  {
    var rest := RoleParam(p.role) + (NumberParam("page", p.page) + NumberParam("limit", p.limit));
    SearchParamsSplit(p);
    LookupAppend(TextParam("q", p.q), rest, "page");
    LookupAppend(RoleParam(p.role), NumberParam("page", p.page) + NumberParam("limit", p.limit), "page");
    LookupAppend(NumberParam("page", p.page), NumberParam("limit", p.limit), "page");
  }

  lemma {:induction false} LookupLimit(p: ListQuery)
    ensures Lookup(SearchParams(p), "limit") == if PresentNumber(p.limit) then Some(IntToString(p.limit.value)) else None
  {
    var rest := RoleParam(p.role) + (NumberParam("page", p.page) + NumberParam("limit", p.limit));
    SearchParamsSplit(p);
    LookupAppend(TextParam("q", p.q), rest, "limit");
    LookupAppend(RoleParam(p.role), NumberParam("page", p.page) + NumberParam("limit", p.limit), "limit");
    LookupAppend(NumberParam("page", p.page), NumberParam("limit", p.limit), "limit");
  }

  /** Every truthy argument reaches the server under its own key with its own
      value, and every falsy one (empty text, page or limit 0) is absent. */
  lemma ListParamsRoundTrip(p: ListQuery)
    ensures ParseListParams(SearchParams(p)) == Normalized(p)
  {
    LookupQ(p);
    LookupRole(p);
    LookupPage(p);
    LookupLimit(p);
    if PresentNumber(p.page) {
      IntToStringRoundTrip(p.page.value);
    }
    if PresentNumber(p.limit) {
      IntToStringRoundTrip(p.limit.value);
    }
  }

  // ---------------------------------------------------------------------------
  // Requests

  function UserPath(id: int): string {
    "/admin/users/" + IntToString(id)
  }

  /** `/admin/users/{id}/{name}`, the path of a sub-resource of one user. */
  function SubPath(id: int, name: string): string {
    UserPath(id) + "/" + name
  }

  function RoleJson(r: Role): Json {
    JStr(RoleName(r))
  }

  function CreateBody(c: CreateUserRequest): (m: map<string, Json>)
    ensures m.Keys == {"fullName", "email", "password", "role"}
  {
    map["fullName" := JStr(c.fullName), "email" := JStr(c.email),
        "password" := JStr(c.password), "role" := RoleJson(c.role)]
  }

  /** The update body: a field is sent exactly when it is given. */
  function UpdateBody(u: UpdateUserRequest): (m: map<string, Json>)
    ensures m.Keys <= {"fullName", "email", "password", "role"}
    ensures ("fullName" in m <==> u.fullName.Some?) && ("email" in m <==> u.email.Some?)
    ensures ("password" in m <==> u.password.Some?) && ("role" in m <==> u.role.Some?)
    ensures u.fullName.Some? ==> m["fullName"] == JStr(u.fullName.value)
    ensures u.email.Some? ==> m["email"] == JStr(u.email.value)
    ensures u.password.Some? ==> m["password"] == JStr(u.password.value)
    ensures u.role.Some? ==> m["role"] == RoleJson(u.role.value)
  {
    var m0: map<string, Json> := map[];
    var m1 := if u.fullName.Some? then m0["fullName" := JStr(u.fullName.value)] else m0;
    var m2 := if u.email.Some? then m1["email" := JStr(u.email.value)] else m1;
    var m3 := if u.password.Some? then m2["password" := JStr(u.password.value)] else m2;
    if u.role.Some? then m3["role" := RoleJson(u.role.value)] else m3
  }

  /** Keys of the request body, empty when no object body is sent. */
  function BodyKeys(r: Request): set<string> {
    if r.body.Some? && r.body.value.JObj? then r.body.value.fields.Keys else {}
  }

  /** The request each call issues. */
  function RequestFor(c: Call): (r: Request)
    ensures IsQuery(c) <==> r.verb == GET
    ensures IsQuery(c) <==> r.credentials == Unset
    ensures r.body.None? <==> (IsQuery(c) || c.DeleteUser?)
    ensures c.UpdateUser? ==> r.verb == PUT && r.url == UserPath(c.id)
    ensures c.DeleteUser? ==> r.verb == DELETE && r.url == UserPath(c.id)
    ensures c.UpdateUserRole? ==> r.verb == PATCH && BodyKeys(r) == {"role"}
    ensures c.UpdateUserPassword? ==> r.verb == PATCH && BodyKeys(r) == {"password"}
    ensures c.CreateUser? ==> BodyKeys(r) == {"fullName", "email", "password", "role"}
    ensures c.ListUsers? ==> r.url == "/admin/users?" + EncodeParams(SearchParams(c.query))
    ensures c.GetUser? ==> r.url == UserPath(c.id)
    ensures c.CreateUser? ==> r.verb == POST && r.url == "/admin/users" && r.body == Some(JObj(CreateBody(c.create)))
    ensures c.UpdateUser? ==> r.body == Some(JObj(UpdateBody(c.update)))
    ensures c.UpdateUserRole? ==> r.url == SubPath(c.id, "role") && r.body == Some(JObj(map["role" := RoleJson(c.role)]))
    ensures c.UpdateUserPassword? ==> r.url == SubPath(c.id, "password") && r.body == Some(JObj(map["password" := JStr(c.password)]))
  {
    match c
    case ListUsers(p) => UrlOnly("/admin/users?" + EncodeParams(SearchParams(p)))
    case GetUser(id) => UrlOnly(UserPath(id))
    case CreateUser(cr) => Request(POST, "/admin/users", Some(JObj(CreateBody(cr))), Include)
    case UpdateUser(id, u) => Request(PUT, UserPath(id), Some(JObj(UpdateBody(u))), Include)
    case UpdateUserRole(id, role) =>
      Request(PATCH, SubPath(id, "role"), Some(JObj(map["role" := RoleJson(role)])), Include)
    case UpdateUserPassword(id, pw) =>
      Request(PATCH, SubPath(id, "password"), Some(JObj(map["password" := JStr(pw)])), Include)
    case DeleteUser(id) => Request(DELETE, UserPath(id), None, Include)
  }

  lemma UserPathInjective(a: int, b: int)
    ensures UserPath(a) == UserPath(b) ==> a == b
  {
    if UserPath(a) == UserPath(b) {
      var pre := "/admin/users/";
      assert IntToString(a) == UserPath(a)[|pre|..];
      assert IntToString(b) == UserPath(b)[|pre|..];
      IntToStringInjective(a, b);
    }
  }

  /** Equal sub-resource paths such as `/admin/users/{id}/role` name the same
      user and the same sub-resource. */
  lemma SubPathInjective(a: int, s: string, b: int, t: string)
    requires '/' !in s && '/' !in t
    ensures SubPath(a, s) == SubPath(b, t) ==> a == b && s == t
  {
    if SubPath(a, s) == SubPath(b, t) {
      assert SubPath(a, s) == UserPath(a) + ['/'] + s;
      assert SubPath(b, t) == UserPath(b) + ['/'] + t;
      SplitAtLastSeparator(UserPath(a), s, UserPath(b), t, '/');
      UserPathInjective(a, b);
    }
  }

  lemma RoleJsonInjective(r: Role, s: Role)
    ensures RoleJson(r) == RoleJson(s) ==> r == s
  {
  }

  lemma SameCreate(c1: Call, c2: Call)
    requires c1.CreateUser? && !c2.ListUsers? && RequestFor(c1) == RequestFor(c2)
    ensures c1 == c2
  {
    var x, y := c1.create, c2.create;
    assert RequestFor(c2).body.value.fields == CreateBody(y);
    assert CreateBody(x)["role"] == CreateBody(y)["role"];
    RoleJsonInjective(x.role, y.role);
  }

  lemma SameUpdate(c1: Call, c2: Call)
    requires c1.UpdateUser? && RequestFor(c1) == RequestFor(c2)
    ensures c1 == c2
  {
    UserPathInjective(c1.id, c2.id);
    var x, y := c1.update, c2.update;
    assert UpdateBody(x) == UpdateBody(y);
    if x.role.Some? {
      RoleJsonInjective(x.role.value, y.role.value);
    }
  }

  lemma SameRole(c1: Call, c2: Call)
    requires c1.UpdateUserRole? && RequestFor(c1) == RequestFor(c2)
    ensures c1 == c2
  {
    assert BodyKeys(RequestFor(c2)) == {"role"};
    assert c2.UpdateUserRole?;
    SubPathInjective(c1.id, "role", c2.id, "role");
    assert RequestFor(c2).body.value.fields["role"] == RoleJson(c2.role);
    RoleJsonInjective(c1.role, c2.role);
  }

  lemma SamePassword(c1: Call, c2: Call)
    requires c1.UpdateUserPassword? && RequestFor(c1) == RequestFor(c2)
    ensures c1 == c2
  {
    assert BodyKeys(RequestFor(c2)) == {"password"};
    assert c2.UpdateUserPassword?;
    SubPathInjective(c1.id, "password", c2.id, "password");
    assert RequestFor(c2).body.value.fields["password"] == JStr(c2.password);
  }

  /** Apart from `listUsers`, whose arguments are normalised first, the request
      alone tells which endpoint was called and with which arguments. */
  lemma RequestDeterminesCall(c1: Call, c2: Call)
    requires !c1.ListUsers? && !c2.ListUsers?
    ensures RequestFor(c1) == RequestFor(c2) ==> c1 == c2
  {
    if RequestFor(c1) == RequestFor(c2) {
      match c1
      case GetUser(a) => UserPathInjective(a, c2.id);
      case CreateUser(_) => SameCreate(c1, c2);
      case UpdateUser(_, _) => SameUpdate(c1, c2);
      case UpdateUserRole(_, _) => SameRole(c1, c2);
      case UpdateUserPassword(_, _) => SamePassword(c1, c2);
      case DeleteUser(a) => UserPathInjective(a, c2.id);
    }
  }

  lemma FirstPageParams()
    ensures SearchParams(ListQuery(None, None, Some(1), Some(10))) == [("page", "1"), ("limit", "10")]
  {
    assert IntToString(1) == NatToString(1) == "1";
    assert IntToString(10) == NatToString(1) + [DigitChar(0)] == "10";
  }

  lemma FirstPageEncoding()
    ensures EncodeParams([("page", "1"), ("limit", "10")]) == "page=1&limit=10"
  {
    var ps := [("page", "1"), ("limit", "10")];
    assert ps[1..] == [("limit", "10")];
    assert EncodeParams(ps[1..]) == "limit=10";
  }

  /** The first page of ten, unfiltered. */
  lemma FirstPageUrl()
    ensures RequestFor(ListUsers(ListQuery(None, None, Some(1), Some(10)))).url == "/admin/users?page=1&limit=10"
  {
    FirstPageParams();
    FirstPageEncoding();
  }

  /** Page 0 and limit 0 are falsy and therefore dropped, leaving a bare `?`. */
  lemma ZeroPageAndLimitDropped()
    ensures RequestFor(ListUsers(ListQuery(Some(""), None, Some(0), Some(0)))).url == "/admin/users?"
  {
  }

  // ---------------------------------------------------------------------------
  // Responses

  /** The endpoints that unwrap their response envelope. */
  predicate Unwraps(c: Call) {
    !(c.UpdateUserPassword? || c.DeleteUser?)
  }

  /** `transformResponse: (response) => response.data` where declared; the raw
      response otherwise. A null response makes `response.data` throw. */
  function TransformResponse(c: Call, raw: Value): (r: Read)
    ensures !Unwraps(c) ==> r == Got(raw)
    ensures Unwraps(c) ==> (r == TypeError <==> Nullish(raw))
  {
    if Unwraps(c) then Get(raw, "data") else Got(raw)
  }

  /** On an envelope `{data: x}` the unwrapping endpoints yield `x`; the password
      and delete endpoints hand back the envelope itself. */
  lemma UnwrapEnvelope(c: Call, x: Json)
    ensures Unwraps(c) ==> TransformResponse(c, Obj(map["data" := x])) == Got(Def(x))
    ensures !Unwraps(c) ==> TransformResponse(c, Obj(map["data" := x])) == Got(Obj(map["data" := x]))
  {
  }

  // ---------------------------------------------------------------------------
  // Cache tags, as declared

  /** `providesTags`: the list provides only the list tag, `getUser(id)` only
      its own id tag, and mutations provide nothing. */
  function ProvidedTags(c: Call): (r: seq<Tag>)
    ensures IsQuery(c) <==> |r| == 1
    ensures !IsQuery(c) ==> r == []
    ensures c.ListUsers? ==> r == [ListTag]
    ensures c.GetUser? ==> r == [UserTag(c.id)] && ListTag !in r
  {
    match c
    case ListUsers(_) => [ListTag]
    case GetUser(id) => [UserTag(id)]
    case _ => []
  }

  /** `invalidatesTags`: which mutations invalidate the list tag and which
      invalidate the tag of the user they change. */
  function InvalidatedTags(c: Call): (r: seq<Tag>)
    ensures ListTag in r <==> c.CreateUser? || c.UpdateUser? || c.UpdateUserRole? || c.DeleteUser?
    ensures forall id :: (UserTag(id) in r
      <==> (c.UpdateUser? || c.UpdateUserRole? || c.UpdateUserPassword?) && id == c.id)
    ensures forall t :: t in r ==> t.kind == TagType
    ensures IsQuery(c) ==> r == []
  {
    match c
    case ListUsers(_) => []
    case GetUser(_) => []
    case CreateUser(_) => [ListTag]
    case UpdateUser(id, _) => [UserTag(id), ListTag]
    case UpdateUserRole(id, _) => [UserTag(id), ListTag]
    case UpdateUserPassword(id, _) => [UserTag(id)]
    case DeleteUser(_) => [ListTag]
  }

  /** Under the assumed matching rule: a role change stales both the user's own
      entry and every list page. */
  lemma RoleChangeStalesUserAndList(id: int, role: Role, q: ListQuery)
    ensures Stales(InvalidatedTags(UpdateUserRole(id, role)), ProvidedTags(GetUser(id)))
    ensures Stales(InvalidatedTags(UpdateUserRole(id, role)), ProvidedTags(ListUsers(q)))
  {
    assert Hits(InvalidatedTags(UpdateUserRole(id, role))[0], ProvidedTags(GetUser(id))[0]);
    assert Hits(InvalidatedTags(UpdateUserRole(id, role))[1], ProvidedTags(ListUsers(q))[0]);
  }

  /** Under the assumed matching rule: a password change stales only the
      changed user's entry, never a list page nor another user's entry. */
  lemma PasswordChangeSparesList(id: int, pw: string, q: ListQuery, other: int)
    ensures Stales(InvalidatedTags(UpdateUserPassword(id, pw)), ProvidedTags(GetUser(id)))
    ensures !Stales(InvalidatedTags(UpdateUserPassword(id, pw)), ProvidedTags(ListUsers(q)))
    ensures other != id ==> !Stales(InvalidatedTags(UpdateUserPassword(id, pw)), ProvidedTags(GetUser(other)))
  {
    assert Hits(InvalidatedTags(UpdateUserPassword(id, pw))[0], ProvidedTags(GetUser(id))[0]);
  }

  /** Under the assumed matching rule: a mutation that invalidates the list tag
      stales every admin user entry, whatever its arguments, since the list tag
      is type-level. */
  lemma ListInvalidationStalesEveryQuery(c: Call, q: Call)
    requires ListTag in InvalidatedTags(c)
    requires IsQuery(q)
    ensures Stales(InvalidatedTags(c), ProvidedTags(q))
  {
    var i :| 0 <= i < |InvalidatedTags(c)| && InvalidatedTags(c)[i] == ListTag;
    assert Hits(InvalidatedTags(c)[i], ProvidedTags(q)[0]);
  }
}
