/** The admin dialogs that create a user and edit one
    (CreateUserDialog.tsx, EditUserDialog.tsx). */
module UserDialogs {
  import opened Wrappers
  import opened Js
  import opened Entities
  import opened Validation
  import Messages
  import opened AdminUsersApi

  /** What pressing the submit button leads to. */
  datatype Submission =
    | Blocked              // the browser refuses the email field; no submit event
    | Invalid              // a field rule fails; the handler does not run
    | Mismatch             // the "Passwords do not match" notification, no request
    | NoRequest            // the handler returns without a request
    | Send(call: Call)

  /** How the mutation settled, and what the dialog shows afterwards. */
  datatype Outcome = Succeeded | Failed(error: Value)

  datatype Closing = Closing(text: Value, success: bool, closes: bool)

  const MismatchText: string := "Passwords do not match"

  /** The role is a `<select>` with a "user" and an "admin" option, so its
      `required` rule always holds and the role is a `Role` here. */
  datatype CreateUserForm = CreateUserForm(
    fullName: string, email: string, role: Role, password: string, confirmPassword: string)

  predicate CreateUserAccepts(f: CreateUserForm) {
    Required(f.fullName) && Required(f.email) && IsEmail(f.email)
    && Required(f.password) && MinLength(f.password, 6) && Required(f.confirmPassword)
  }

  /** The request built from the form: the confirmation is left behind. */
  function CreatePayload(f: CreateUserForm): CreateUserRequest {
    CreateUserRequest(f.fullName, f.email, f.password, f.role)
  }

  /** Submitting the create form. The form does not set `noValidate` and its
      email input has `type="email"`, so the browser checks the email before
      the submit event reaches the form's handler; `emailPassesBrowser` is the
      browser's verdict, whose rule is not part of this model. */
  function SubmitCreateUser(f: CreateUserForm, emailPassesBrowser: bool): (r: Submission)
    ensures r.Blocked? <==> !emailPassesBrowser
    ensures r.Send? <==> emailPassesBrowser && CreateUserAccepts(f) && f.password == f.confirmPassword
    ensures r.Mismatch? <==> emailPassesBrowser && CreateUserAccepts(f) && f.password != f.confirmPassword
    ensures !r.NoRequest?
    ensures r.Send? ==> r.call == CreateUser(CreatePayload(f))
  {
    if !emailPassesBrowser then Blocked
    else if !CreateUserAccepts(f) then Invalid
    else if f.password != f.confirmPassword then Mismatch
    else Send(CreateUser(CreatePayload(f)))
  }

  /** Whatever is typed, the request body holds the four user fields and never
      the confirmation, and a sent password is at least six characters. */
  lemma CreateUserBodyHasNoConfirmation(f: CreateUserForm, emailPassesBrowser: bool)
    requires SubmitCreateUser(f, emailPassesBrowser).Send?
    ensures BodyKeys(RequestFor(SubmitCreateUser(f, emailPassesBrowser).call)) == {"fullName", "email", "password", "role"}
    ensures "confirmPassword" !in BodyKeys(RequestFor(SubmitCreateUser(f, emailPassesBrowser).call))
    ensures |SubmitCreateUser(f, emailPassesBrowser).call.create.password| >= 6
  {
  }

  /** The edit form. The password fields start out undefined and may be left
      so; the confirmation field is only shown while a password is typed. */
  datatype EditUserForm = EditUserForm(
    fullName: string, email: string, role: Role,
    password: Option<string>, confirmPassword: Option<string>)

  function Field(o: Option<string>): Value {
    if o.Some? then Str(o.value) else Undefined
  }

  /** `data.password` is truthy: given and not empty. */
  predicate PasswordGiven(f: EditUserForm) {
    Truthy(Field(f.password))
  }

  /** The new password is optional; when typed it needs six characters. */
  predicate EditUserAccepts(f: EditUserForm) {
    Required(f.fullName) && Required(f.email) && IsEmail(f.email)
    && (f.password.None? || MinLength(f.password.value, 6))
  }

  function EditPayload(f: EditUserForm): UpdateUserRequest {
    UpdateUserRequest(Some(f.fullName), Some(f.email),
      if PasswordGiven(f) then f.password else None, Some(f.role))
  }

  /** Submitting the edit form; as for the create form, the browser checks the
      email first and `emailPassesBrowser` is its verdict. */
  function SubmitEditUser(f: EditUserForm, user: Option<AdminUser>, emailPassesBrowser: bool): (r: Submission)
    ensures r.Blocked? <==> !emailPassesBrowser
    ensures r.Invalid? <==> emailPassesBrowser && !EditUserAccepts(f)
    ensures r.Mismatch? <==> emailPassesBrowser && EditUserAccepts(f) && PasswordGiven(f) && f.password != f.confirmPassword
    ensures r.NoRequest? <==> (emailPassesBrowser && EditUserAccepts(f)
                               && !(PasswordGiven(f) && f.password != f.confirmPassword) && user.None?)
    ensures r.Send? ==> r.call.UpdateUser? && user.Some? && r.call.id == user.value.id
    ensures r.Send? ==> (r.call.update.password.Some? <==> PasswordGiven(f))
    ensures r.Send? && PasswordGiven(f) ==> r.call.update.password == f.password
    ensures r.Send? ==> r.call.update.fullName == Some(f.fullName) && r.call.update.email == Some(f.email)
    ensures r.Send? ==> r.call.update.role == Some(f.role)
  {
    if !emailPassesBrowser then Blocked
    else if !EditUserAccepts(f) then Invalid
    else if PasswordGiven(f) && f.password != f.confirmPassword then Mismatch
    else if user.None? then NoRequest
    else Send(UpdateUser(user.value.id, EditPayload(f)))
  }

  /** Leaving the password empty keeps the current one: once the browser lets
      the email through, no mismatch is reported whatever the confirmation
      holds, and no password is sent. */
  lemma EmptyPasswordKeepsCurrent(f: EditUserForm, user: AdminUser)
    requires f.password == None || f.password == Some("")
    requires Required(f.fullName) && Required(f.email) && IsEmail(f.email)
    ensures SubmitEditUser(f, Some(user), true).Send?
    ensures "password" !in BodyKeys(RequestFor(SubmitEditUser(f, Some(user), true).call))
    ensures RequestFor(SubmitEditUser(f, Some(user), true).call).url == UserPath(user.id)
  {
  }

  /** A typed password reaches the body unchanged. */
  lemma TypedPasswordIsSent(f: EditUserForm, user: AdminUser, pw: string)
    requires f.password == Some(pw) && f.confirmPassword == Some(pw) && |pw| >= 6
    requires Required(f.fullName) && Required(f.email) && IsEmail(f.email)
    ensures RequestFor(SubmitEditUser(f, Some(user), true).call).body.value.fields["password"] == JStr(pw)
  {
    assert SubmitEditUser(f, Some(user), true).call.update.password == Some(pw);
  }

  /** The two user dialogs. */
  datatype Dialog = CreateDialog | EditDialog

  function SuccessText(d: Dialog): string {
    if d.CreateDialog? then "User created successfully" else "User updated successfully"
  }

  function FailureFallback(d: Dialog): string {
    if d.CreateDialog? then "Failed to create user" else "Failed to update user"
  }

  /** What a dialog shows once its mutation settles, and whether it closes. */
  function DialogClosing(d: Dialog, o: Outcome): (c: Closing)
    ensures c.success <==> o.Succeeded?
    ensures c.closes <==> o.Succeeded?
    ensures o.Succeeded? && d == CreateDialog ==> c.text == Str("User created successfully")
    ensures o.Succeeded? && d == EditDialog ==> c.text == Str("User updated successfully")
    ensures o.Failed? && d == CreateDialog ==> c.text == Messages.FailureText(o.error, "Failed to create user")
    ensures o.Failed? && d == EditDialog ==> c.text == Messages.FailureText(o.error, "Failed to update user")
    ensures Truthy(c.text)
  {
    match o
    case Succeeded => Closing(Str(SuccessText(d)), true, true)
    case Failed(e) =>
      Messages.FailureTextNeverBlank(e, FailureFallback(d));
      Closing(Messages.FailureText(e, FailureFallback(d)), false, false)
  }

  /** A server `detail` is shown as it is; an error without any server text
      (a network failure) shows the dialog's own fallback. */
  lemma ServerDetailOrFallback(d: Dialog, detail: string)
    requires detail != ""
    ensures DialogClosing(d, Failed(Obj(map["data" := JObj(map["detail" := JStr(detail)])]))).text == Str(detail)
    ensures DialogClosing(CreateDialog, Failed(Undefined)).text == Str("Failed to create user")
    ensures DialogClosing(EditDialog, Failed(Undefined)).text == Str("Failed to update user")
  {
    OptGetLiteral("data", JObj(map["detail" := JStr(detail)]));
    OptGetLiteral("detail", JStr(detail));
  }
}
