/** The admin user management screen (UserManagement.tsx) and the table it
    renders (UserTable.tsx): the list query, pagination, the role toggle and
    deletion. */
module UserList {
  import opened Wrappers
  import opened Js
  import opened Http
  import opened Entities
  import Messages
  import opened AdminUsersApi

  /** The page always asks for ten users per page. */
  const PageSize: int := 10

  // ---------------------------------------------------------------------------
  // The list query

  /** The screen's filter state: current page, search text and role filter. */
  datatype ListState = ListState(page: int, search: string, roleFilter: Option<Role>)

  const Initial: ListState := ListState(1, "", None)

  /** The arguments of `useListUsersQuery`: `search || undefined`, the role
      filter, the page and the fixed limit. */
  function QueryArgs(s: ListState): (q: ListQuery)
    ensures q.q.Some? <==> s.search != ""
    ensures q.q.Some? ==> q.q.value == s.search
    ensures q.role == s.roleFilter
    ensures q.page == Some(s.page) && q.limit == Some(PageSize)
  {
    ListQuery(if s.search != "" then Some(s.search) else None, s.roleFilter, Some(s.page), Some(PageSize))
  }

  /** On first render the screen asks for the first page of ten, unfiltered. */
  lemma InitialRequest()
    ensures RequestFor(ListUsers(QueryArgs(Initial))).url == "/admin/users?page=1&limit=10"
  {
    FirstPageUrl();
  }

  /** The server reads back exactly the screen's filter state: the search text
      when it is not empty, the role filter, the page unless it is 0, and a
      limit of ten. */
  lemma ServerSeesListState(s: ListState)
    ensures ParseListParams(SearchParams(QueryArgs(s)))
      == ListQuery(if s.search != "" then Some(s.search) else None, s.roleFilter,
                   if s.page != 0 then Some(s.page) else None, Some(PageSize))
  {
    ListParamsRoundTrip(QueryArgs(s));
  }

  // ---------------------------------------------------------------------------
  // Page count and the "Showing a to b of t" line

  /** `Math.ceil(a / b)` for a positive divisor, from Dafny's division, which
      floors for a positive divisor. */
  function CeilDiv(a: int, b: int): (r: int)
    requires b > 0
    ensures (r - 1) * b < a <= r * b
  {
    var q := (-a) / b;
    assert -a == q * b + (-a) % b;
    -q
  }

  lemma MulMono(x: int, y: int, l: int)
    requires x <= y && l >= 0
    ensures x * l <= y * l
  {
    assert y * l - x * l == (y - x) * l;
  }

  /** The bounds determine the page count: it is the only `n` with
      `(n - 1) * b < a <= n * b`. */
  lemma {:induction false} CeilDivUnique(a: int, b: int, n: int)
    requires b > 0
    requires (n - 1) * b < a <= n * b
    ensures n == CeilDiv(a, b)
  {
    var r := CeilDiv(a, b);
    if n < r {
      MulMono(n, r - 1, b);
      assert false;
    } else if r < n {
      MulMono(r, n - 1, b);
      assert false;
    }
  }

  /** What `Math.ceil(total / limit)` evaluates to for a response's integers. A
      zero limit divides by zero, giving an infinity or NaN. */
  datatype PageCount = Pages(n: int) | PlusInfinity | MinusInfinity | NotANumber

  /** `data ? Math.ceil(data.total / data.limit) : 0`. */
  function TotalPages(data: Option<(int, int)>): (r: PageCount)
    ensures data.None? ==> r == Pages(0)
    ensures data.Some? && data.value.1 > 0 ==> r.Pages? && (r.n - 1) * data.value.1 < data.value.0 <= r.n * data.value.1
    ensures data.Some? && data.value.1 == 0 ==> (r == PlusInfinity <==> data.value.0 > 0) && (r == NotANumber <==> data.value.0 == 0)
  {
    match data
    case None => Pages(0)
    case Some((total, limit)) =>
      if limit > 0 then Pages(CeilDiv(total, limit))
      else if limit < 0 then Pages(CeilDiv(-total, -limit))
      else if total > 0 then PlusInfinity
      else if total < 0 then MinusInfinity
      else NotANumber
  }

  /** `totalPages > 1`: pagination is shown. */
  predicate ShowPagination(pc: PageCount) {
    (pc.Pages? && pc.n > 1) || pc.PlusInfinity?
  }

  /** With positive sizes, pagination shows exactly when there are more users
      than fit on one page. */
  lemma PaginationIffOverflow(total: int, limit: int)
    requires limit > 0
    ensures ShowPagination(TotalPages(Some((total, limit)))) <==> total > limit
  {
    var n := TotalPages(Some((total, limit))).n;
    if n > 1 {
      MulMono(1, n - 1, limit);
    } else {
      MulMono(n, 1, limit);
    }
  }

  function RangeStart(page: int, limit: int): int {
    (page - 1) * limit + 1
  }

  function RangeEnd(page: int, limit: int, total: int): int {
    if page * limit < total then page * limit else total
  }

  /** Page `page` (from 1) is within the page count exactly when some user
      falls after the pages before it. */
  lemma {:induction false} PageWithinCount(page: int, limit: int, total: int)
    requires limit > 0 && page >= 1
    ensures page <= TotalPages(Some((total, limit))).n <==> (page - 1) * limit < total
  {
    var n := TotalPages(Some((total, limit))).n;
    if page <= n {
      MulMono(page - 1, n - 1, limit);
    } else {
      MulMono(n, page - 1, limit);
    }
  }

  /** For any page between 1 and the page count (stated as in
      `PageWithinCount`), the "Showing" line names a non-empty range inside
      `1..total` holding at most one page of users. */
  lemma {:induction false} RangeWithinTotal(page: int, limit: int, total: int)
    requires limit > 0 && page >= 1 && (page - 1) * limit < total
    ensures 1 <= RangeStart(page, limit) <= RangeEnd(page, limit, total) <= total
    ensures RangeEnd(page, limit, total) - RangeStart(page, limit) < limit
  {
    MulMono(0, page - 1, limit);
    assert page * limit == (page - 1) * limit + limit;
  }

  /** Consecutive pages abut, and the last page ends at the total. */
  lemma {:induction false} RangesTile(page: int, limit: int, total: int)
    requires limit > 0 && page >= 1 && (page - 1) * limit < total
    ensures page < TotalPages(Some((total, limit))).n ==> RangeEnd(page, limit, total) + 1 == RangeStart(page + 1, limit)
    ensures page == TotalPages(Some((total, limit))).n ==> RangeEnd(page, limit, total) == total
  {
    var n := TotalPages(Some((total, limit))).n;
    if page < n {
      MulMono(page, n - 1, limit);
      assert (page + 1 - 1) * limit == page * limit;
    }
  }

  /** 45 users: five pages, and the fifth shows users 41 to 45. */
  lemma FortyFiveUsers()
    ensures TotalPages(Some((45, 10))) == Pages(5)
    ensures RangeStart(5, 10) == 41 && RangeEnd(5, 10, 45) == 45
  {
    CeilDivUnique(45, 10, 5);
  }

  // ---------------------------------------------------------------------------
  // Filter and pagination events

  datatype Event =
    | SearchTyped(text: string)
    | RoleFilterChosen(choice: string)   // the `<select>` value: "", "admin" or "user"
    | PreviousClicked
    | NextClicked

  /** The select's value: `""` is "All Roles"; any other value is cast. */
  function ChosenRole(choice: string): (r: Option<Role>)
    ensures r.None? <==> choice == ""
    ensures choice == "admin" ==> r == Some(Admin)
    ensures choice == "user" ==> r == Some(User)
  {
    if choice == "" then None
    else if choice == "admin" then Some(Admin)
    else Some(User)
  }

  /** One event against the page count of the current data. A button that is
      not rendered or is disabled does nothing. */
  function Step(s: ListState, pc: PageCount, e: Event): (t: ListState)
    ensures e.SearchTyped? ==> t == ListState(1, e.text, s.roleFilter)
    ensures e.RoleFilterChosen? ==> t == ListState(1, s.search, ChosenRole(e.choice))
    ensures (e.PreviousClicked? || e.NextClicked?) ==> t.search == s.search && t.roleFilter == s.roleFilter
    ensures (e.PreviousClicked? || e.NextClicked?) && !ShowPagination(pc) ==> t == s
    ensures e.PreviousClicked? && s.page == 1 ==> t == s
    ensures e.PreviousClicked? && ShowPagination(pc) && s.page > 1 ==> t.page == s.page - 1
    ensures e.NextClicked? && pc == Pages(s.page) ==> t == s
    ensures e.NextClicked? && pc.Pages? && ShowPagination(pc) && s.page != pc.n
      ==> t.page <= pc.n && t.page <= s.page + 1 && (t.page == pc.n || t.page == s.page + 1)
    ensures e.NextClicked? && pc.PlusInfinity? ==> t.page == s.page + 1
  {
    match e
    case SearchTyped(text) => ListState(1, text, s.roleFilter)
    case RoleFilterChosen(choice) => ListState(1, s.search, ChosenRole(choice))
    case PreviousClicked =>
      if !ShowPagination(pc) || s.page == 1 then s
      else s.(page := if s.page - 1 < 1 then 1 else s.page - 1)
    case NextClicked =>
      if !ShowPagination(pc) || pc == Pages(s.page) then s
      else if pc.PlusInfinity? then s.(page := s.page + 1)
      else s.(page := if pc.n < s.page + 1 then pc.n else s.page + 1)
  }

  /** The page stays within `1..max(1, n)` across events while the data holds
      `n` pages. */
  predicate PageInRange(s: ListState, n: int) {
    1 <= s.page && (s.page <= n || s.page == 1)
  }

  lemma StepKeepsPageInRange(s: ListState, n: int, e: Event)
    requires PageInRange(s, n)
    ensures PageInRange(Step(s, Pages(n), e), n)
  {
  }

  /** Below the last page, Next then Previous returns to the same state. */
  lemma NextThenPrevious(s: ListState, n: int)
    requires 1 <= s.page < n
    ensures Step(Step(s, Pages(n), NextClicked), Pages(n), PreviousClicked) == s
  {
  }

  // ---------------------------------------------------------------------------
  // The table

  datatype Badge = DefaultBadge | SecondaryBadge

  datatype CreatedCell = NotAvailable | Formatted(raw: string)

  datatype Row =
    | EmptyRow
    | UserRow(id: int, name: string, email: string, badge: Badge, roleText: string, created: CreatedCell)

  function BadgeFor(r: Role): (b: Badge)
    ensures b == DefaultBadge <==> r == Admin
  {
    if r == Admin then DefaultBadge else SecondaryBadge
  }

  /** `user.created_at ? format(...) : "N/A"`: a missing or empty date shows N/A. */
  function CreatedFor(created_at: Option<string>): (c: CreatedCell)
    ensures c == NotAvailable <==> (created_at.None? || created_at.value == "")
    ensures c.Formatted? ==> c.raw == created_at.value
  {
    if created_at.Some? && created_at.value != "" then Formatted(created_at.value) else NotAvailable
  }

  function RowFor(u: AdminUser): Row {
    UserRow(u.id, u.fullName, u.email, BadgeFor(u.role), RoleName(u.role), CreatedFor(u.created_at))
  }

  /** An empty list renders one "No users found" row; otherwise one row per user,
      in order. */
  function Rows(users: seq<AdminUser>): (r: seq<Row>)
    ensures |users| == 0 <==> r == [EmptyRow]
    ensures |users| > 0 ==> |r| == |users|
    ensures |users| > 0 ==> forall i :: 0 <= i < |users| ==>
      r[i].UserRow? && r[i].id == users[i].id && r[i].name == users[i].fullName
      && r[i].email == users[i].email && r[i].roleText == RoleName(users[i].role)
  {
    if |users| == 0 then [EmptyRow]
    else
      var r := seq(|users|, i requires 0 <= i < |users| => RowFor(users[i]));
      assert r[0].UserRow?;
      r
  }

  /** Each user's row carries that user's badge and creation cell: the filled
      badge exactly for admins, "N/A" exactly for a missing or empty date. */
  lemma RowShowsBadgeAndDate(users: seq<AdminUser>, i: int)
    requires 0 <= i < |users|
    ensures Rows(users)[i].UserRow?
    ensures Rows(users)[i].badge == BadgeFor(users[i].role)
    ensures Rows(users)[i].badge == DefaultBadge <==> users[i].role == Admin
    ensures Rows(users)[i].created == CreatedFor(users[i].created_at)
    ensures Rows(users)[i].created == NotAvailable
      <==> users[i].created_at.None? || users[i].created_at.value == ""
  {
    assert Rows(users)[i] == RowFor(users[i]);
  }

  /** Which of the list screen's regions render. */
  datatype ListView = ListView(spinner: bool, failure: bool, table: bool, emptyState: bool)

  function View(isLoading: bool, isError: bool, items: Option<seq<AdminUser>>): (v: ListView)
    ensures v.spinner == isLoading && v.failure == isError
    ensures v.table <==> !isLoading && !isError && items.Some?
    ensures v.emptyState <==> v.table && |items.value| == 0
  {
    var table := !isLoading && !isError && items.Some?;
    ListView(isLoading, isError, table, table && |items.value| == 0)
  }

  /** The empty state and the table's "No users found" row appear together: a
      loaded, empty page shows both, and a non-empty page neither. */
  lemma EmptyStateMatchesEmptyRow(items: seq<AdminUser>)
    ensures View(false, false, Some(items)).emptyState <==> Rows(items) == [EmptyRow]
    ensures View(false, false, Some(items)).table
  {
  }

  /** The hint of the empty state, and whether it offers "Create User". */
  function EmptyHint(s: ListState): (r: (string, bool))
    ensures r.1 <==> s.search == "" && s.roleFilter.None?
    ensures r.1 <==> r.0 == "Get started by creating your first user"
  {
    if s.search != "" || s.roleFilter.Some? then ("Try adjusting your search or filters", false)
    else ("Get started by creating your first user", true)
  }

  /** Searching and finding nobody suggests adjusting the filters and offers no
      "Create User" button; the unfiltered first page offers it. */
  lemma SearchWithoutMatchesSuggestsAdjusting(s: ListState, pc: PageCount, text: string)
    requires text != ""
    ensures View(false, false, Some([])).emptyState
    ensures EmptyHint(Step(s, pc, SearchTyped(text))) == ("Try adjusting your search or filters", false)
    ensures EmptyHint(Initial).1
  {
  }

  // ---------------------------------------------------------------------------
  // Changing a role

  /** `handleRoleChange(userId, currentRole)`: sends the flip of the role it is
      given, and announces that flipped role on success. */
  function HandleRoleChange(userId: int, currentRole: Role): (r: (Call, string))
    ensures r.0.UpdateUserRole? && r.0.id == userId
    ensures r.0.role != currentRole
    ensures r.1 == "User role changed to " + RoleName(r.0.role)
  {
    var newRole := Flip(currentRole);
    (UpdateUserRole(userId, newRole), "User role changed to " + RoleName(newRole))
  }

  /** The table's "Change Role" item as written: it hands the handler the
      already flipped role. */
  function ChangeRoleClickAsWritten(u: AdminUser): (r: (Call, string))
    ensures r.0.UpdateUserRole? && r.0.id == u.id
  {
    HandleRoleChange(u.id, Flip(u.role))
  }

  /** As written, the role is flipped twice: the request asks for the role the
      user already has, and the notification names that role. */
  lemma AsWrittenResendsCurrentRole(u: AdminUser)
    ensures ChangeRoleClickAsWritten(u).0 == UpdateUserRole(u.id, u.role)
    ensures ChangeRoleClickAsWritten(u).1 == "User role changed to " + RoleName(u.role)
  {
    FlipTwice(u.role);
  }

  /** An admin user clicked: the request asks for "admin" again. */
  lemma AsWrittenAdminStaysAdmin()
    ensures ChangeRoleClickAsWritten(AdminUser(7, "Ann", "ann@x.io", Admin, None, None)).0
      == UpdateUserRole(7, Admin)
    ensures RequestFor(ChangeRoleClickAsWritten(AdminUser(7, "Ann", "ann@x.io", Admin, None, None)).0).body
      == Some(JObj(map["role" := JStr("admin")]))
  {
  }

  /** The corrected item passes the current role, so the handler's single flip
      asks for the other role. */
  function ChangeRoleClick(u: AdminUser): (r: (Call, string))
    ensures r.0 == UpdateUserRole(u.id, Flip(u.role))
    ensures r.0.role != u.role
    ensures r.1 == "User role changed to " + RoleName(Flip(u.role))
  {
    HandleRoleChange(u.id, u.role)
  }

  /** Clicking the corrected item twice returns the user to the starting role,
      and every click refreshes the user's entry and the list. */
  lemma ChangeRoleTwiceRestores(u: AdminUser)
    ensures ChangeRoleClick(u.(role := ChangeRoleClick(u).0.role)).0.role == u.role
    ensures Stales(InvalidatedTags(ChangeRoleClick(u).0), ProvidedTags(GetUser(u.id)))
    ensures Stales(InvalidatedTags(ChangeRoleClick(u).0), ProvidedTags(ListUsers(QueryArgs(Initial))))
  {
    FlipTwice(u.role);
    RoleChangeStalesUserAndList(u.id, Flip(u.role), QueryArgs(Initial));
  }

  datatype Outcome = Succeeded | Failed(error: Value)

  /** The notification after a role change; success also refetches the list. */
  function RoleChangeNotice(announce: string, o: Outcome): (r: (Value, bool))
    ensures r.1 <==> o.Succeeded?
    ensures o.Succeeded? ==> r.0 == Str(announce)
    ensures o.Failed? ==> r.0 == Messages.FailureText(o.error, "Failed to update role")
  {
    match o
    case Succeeded => (Str(announce), true)
    case Failed(e) => (Messages.FailureText(e, "Failed to update role"), false)
  }

  /** On success the notice names the role the request carried. With the
      corrected click that is the other role; as written, it is the role the
      user already had. */
  lemma NoticeNamesSentRole(u: AdminUser)
    ensures RoleChangeNotice(ChangeRoleClick(u).1, Succeeded).0
      == Str("User role changed to " + RoleName(ChangeRoleClick(u).0.role))
    ensures ChangeRoleClick(u).0.role == Flip(u.role)
    ensures RoleChangeNotice(ChangeRoleClickAsWritten(u).1, Succeeded).0
      == Str("User role changed to " + RoleName(u.role))
  {
    AsWrittenResendsCurrentRole(u);
  }

  // ---------------------------------------------------------------------------
  // Deleting a user

  /** The confirmation dialog and the id it is about (`null` is `None`). */
  datatype DeleteState = DeleteState(open: bool, pending: Option<int>)

  /** `Dismissed` is the dialog closing itself (Escape or the overlay): it only
      sets the open flag, so the chosen id stays. */
  datatype DeleteEvent = DeleteChosen(id: int) | Cancelled | Dismissed | Confirmed(outcome: Outcome)

  /** `handleDelete`: nothing is sent when no id is pending or the id is 0,
      which is falsy. */
  function DeleteRequest(d: DeleteState): (r: Option<Call>)
    ensures r.Some? <==> d.pending.Some? && d.pending.value != 0
    ensures r.Some? ==> r.value == DeleteUser(d.pending.value)
  {
    if d.pending.Some? && d.pending.value != 0 then Some(DeleteUser(d.pending.value)) else None
  }

  /** The dialog after an event, with the notification shown, if any. On
      success it closes and forgets the id; on failure it stays as it was. */
  function DeleteStep(d: DeleteState, e: DeleteEvent): (r: (DeleteState, Option<Value>))
    ensures e.DeleteChosen? ==> r.0 == DeleteState(true, Some(e.id)) && r.1.None?
    ensures e.Cancelled? ==> r.0 == DeleteState(false, None) && r.1.None?
    ensures e.Dismissed? ==> r.0 == DeleteState(false, d.pending) && r.1.None?
    ensures e.Confirmed? && DeleteRequest(d).None? ==> r == (d, None)
    ensures e.Confirmed? && DeleteRequest(d).Some? && e.outcome.Succeeded?
      ==> r == (DeleteState(false, None), Some(Str("User deleted successfully")))
    ensures e.Confirmed? && DeleteRequest(d).Some? && e.outcome.Failed?
      ==> r == (d, Some(Messages.FailureText(e.outcome.error, "Failed to delete user")))
  {
    match e
    case DeleteChosen(id) => (DeleteState(true, Some(id)), None)
    case Cancelled => (DeleteState(false, None), None)
    case Dismissed => (DeleteState(false, d.pending), None)
    case Confirmed(o) =>
      if DeleteRequest(d).None? then (d, None)
      else match o
        case Succeeded => (DeleteState(false, None), Some(Str("User deleted successfully")))
        case Failed(err) => (d, Some(Messages.FailureText(err, "Failed to delete user")))
  }

  /** Choosing a user and confirming deletes exactly that user, unless its id is 0. */
  lemma ChooseThenConfirmDeletesChosen(d: DeleteState, id: int)
    ensures DeleteRequest(DeleteStep(d, DeleteChosen(id)).0) == (if id == 0 then None else Some(DeleteUser(id)))
    ensures id != 0 ==> RequestFor(DeleteUser(id)).url == UserPath(id)
  {
  }
}
