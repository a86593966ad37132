/** The four sign-up and sign-in pages (Register.tsx, AdminRegistration.tsx,
    Login.tsx, AdminLogin.tsx): which inputs reach the endpoint, what they send,
    and which notification text each outcome shows. */
module AuthForms {
  import opened Wrappers
  import opened Js
  import opened Validation
  import Messages
  import AuthApi
  import AdminAuthApi

  datatype RegisterForm = RegisterForm(fullName: string, email: string, password: string)

  datatype LoginForm = LoginForm(email: string, password: string)

  /** How a submitted request settled, as the page's effect sees it. */
  datatype Outcome = Succeeded(data: Value) | Failed(error: map<string, Json>)

  datatype ToastKind = SuccessToast | ErrorToast

  datatype Toast = Toast(kind: ToastKind, text: Value)

  predicate EmailRules(email: string) {
    Required(email) && IsEmail(email)
  }

  /** Register.tsx: name and email required, email pattern, strong password. */
  predicate RegisterAccepts(f: RegisterForm) {
    Required(f.fullName) && EmailRules(f.email) && Required(f.password) && StrongPassword(f.password)
  }

  /** AdminRegistration.tsx: the same, with the alphanumeric admin password. */
  predicate AdminRegisterAccepts(f: RegisterForm) {
    Required(f.fullName) && EmailRules(f.email) && Required(f.password) && AdminPassword(f.password)
  }

  /** Login.tsx and AdminLogin.tsx: email pattern, and a password that is only required. */
  predicate LoginAccepts(f: LoginForm) {
    EmailRules(f.email) && Required(f.password)
  }

  function RegisterValues(f: RegisterForm): map<string, Json> {
    map["fullName" := JStr(f.fullName), "email" := JStr(f.email), "password" := JStr(f.password)]
  }

  function LoginValues(f: LoginForm): Json {
    JObj(map["email" := JStr(f.email), "password" := JStr(f.password)])
  }

  /** The form values go to `registerUser` unchanged, and only when every rule passes. */
  function SubmitRegister(f: RegisterForm): (r: Option<AuthApi.Call>)
    ensures r.Some? <==> RegisterAccepts(f)
    ensures r.Some? ==> AuthApi.RequestFor(r.value).url == "/auth/register"
    ensures r.Some? ==> AuthApi.RequestFor(r.value).body == Some(JObj(RegisterValues(f)))
  {
    if RegisterAccepts(f) then Some(AuthApi.RegisterUser(JObj(RegisterValues(f)))) else None
  }

  function SubmitAdminRegister(f: RegisterForm): (r: Option<AdminAuthApi.Call>)
    ensures r.Some? <==> AdminRegisterAccepts(f)
    ensures r.Some? ==> AdminAuthApi.RequestFor(r.value).body == Some(JObj(RegisterValues(f)))
  {
    if AdminRegisterAccepts(f) then
      assert AdminAuthApi.RegisterBody(RegisterValues(f)) == RegisterValues(f);
      Some(AdminAuthApi.RegisterAdmin(RegisterValues(f)))
    else None
  }

  function SubmitLogin(f: LoginForm): (r: Option<AuthApi.Call>)
    ensures r.Some? <==> LoginAccepts(f)
    ensures r.Some? ==> AuthApi.RequestFor(r.value).body == Some(LoginValues(f))
  {
    if LoginAccepts(f) then Some(AuthApi.LoggedInUser(LoginValues(f))) else None
  }

  function SubmitAdminLogin(f: LoginForm): (r: Option<AdminAuthApi.Call>)
    ensures r.Some? <==> LoginAccepts(f)
    ensures r.Some? ==> AdminAuthApi.RequestFor(r.value).body == Some(LoginValues(f))
  {
    if LoginAccepts(f) then Some(AdminAuthApi.LoggedInAdmin(LoginValues(f))) else None
  }

  /** The shared effect shape: success shows `data?.message ?? success`; an
      error shows `error.data?.detail ?? failure` when it has `data`, and
      "Something went wrong" otherwise. */
  function OutcomeToast(o: Outcome, success: string, failure: string): (t: Toast)
    ensures o.Succeeded? <==> t.kind == SuccessToast
    ensures o.Succeeded? && !Nullish(OptGet(o.data, "message")) ==> t.text == OptGet(o.data, "message")
    ensures o.Succeeded? && Nullish(OptGet(o.data, "message")) ==> t.text == Str(success)
    ensures o.Failed? && "data" in o.error && !Nullish(OptGet(Def(o.error["data"]), "detail"))
      ==> t.text == OptGet(Def(o.error["data"]), "detail")
    ensures o.Failed? && "data" in o.error && Nullish(OptGet(Def(o.error["data"]), "detail")) ==> t.text == Str(failure)
    ensures o.Failed? && "data" !in o.error ==> t.text == Str("Something went wrong")
    ensures !Nullish(t.text)
  {
    match o
    case Succeeded(data) => Toast(SuccessToast, Messages.SuccessToast(data, success))
    case Failed(error) => Toast(ErrorToast, Messages.ErrorToast(error, failure))
  }

  /** The four pages that sign up or sign in. */
  datatype AuthPage = RegisterPage | AdminRegistrationPage | LoginPage | AdminLoginPage

  function SuccessFallback(p: AuthPage): string {
    match p
    case RegisterPage => "Account created!"
    case AdminRegistrationPage => "Admin created!"
    case LoginPage => "Logged in!"
    case AdminLoginPage => "Admin logged in!"
  }

  function FailureFallback(p: AuthPage): string {
    if p.RegisterPage? || p.AdminRegistrationPage? then "Registration failed" else "Login failed"
  }

  /** A success whose response carries no `message`. */
  predicate NoMessage(o: Outcome) {
    o.Succeeded? && Nullish(OptGet(o.data, "message"))
  }

  /** A failure whose `data` is there but carries no `detail`. */
  predicate NoDetail(o: Outcome) {
    o.Failed? && "data" in o.error && Nullish(OptGet(Def(o.error["data"]), "detail"))
  }

  /** The notification each page shows once its mutation settles. */
  function PageToast(p: AuthPage, o: Outcome): (t: Toast)
    ensures o.Succeeded? <==> t.kind == SuccessToast
    ensures o.Succeeded? && !Nullish(OptGet(o.data, "message")) ==> t.text == OptGet(o.data, "message")
    ensures o.Failed? && "data" in o.error && !Nullish(OptGet(Def(o.error["data"]), "detail"))
      ==> t.text == OptGet(Def(o.error["data"]), "detail")
    ensures o.Failed? && "data" !in o.error ==> t.text == Str("Something went wrong")
    ensures NoMessage(o) && p == RegisterPage ==> t.text == Str("Account created!")
    ensures NoMessage(o) && p == AdminRegistrationPage ==> t.text == Str("Admin created!")
    ensures NoMessage(o) && p == LoginPage ==> t.text == Str("Logged in!")
    ensures NoMessage(o) && p == AdminLoginPage ==> t.text == Str("Admin logged in!")
    ensures NoDetail(o) && (p == RegisterPage || p == AdminRegistrationPage) ==> t.text == Str("Registration failed")
    ensures NoDetail(o) && (p == LoginPage || p == AdminLoginPage) ==> t.text == Str("Login failed")
  {
    OutcomeToast(o, SuccessFallback(p), FailureFallback(p))
  }

  /** An error whose `detail` is the empty string shows an empty notification on
      the login page, since `??` only falls through on null or undefined. */
  lemma LoginShowsEmptyDetail()
    ensures PageToast(LoginPage, Failed(map["data" := JObj(map["detail" := JStr("")])])).text == Str("")
  {
  }

  /** Errors without a `data` field (network failures) read the same on every page. */
  lemma NoDataIsSomethingWentWrong(p: AuthPage, error: map<string, Json>)
    requires "data" !in error
    ensures PageToast(p, Failed(error)).text == Str("Something went wrong")
  {
  }

  /** No password passes both registration pages: a user password accepted on
      the user page is refused on the admin page and vice versa. */
  lemma RegistrationPagesDisagreeOnPasswords(f: RegisterForm)
    ensures !(RegisterAccepts(f) && AdminRegisterAccepts(f))
  {
    PasswordPoliciesDisjoint(f.password);
  }

  /** Any special character in the password makes the admin page refuse it. */
  lemma AdminRegistrationRefusesSpecial(f: RegisterForm, k: int)
    requires 0 <= k < |f.password| && IsSpecial(f.password[k])
    ensures !AdminRegisterAccepts(f)
  {
  }
}
