/** The two fallback styles the front end uses to turn an outcome into the text
    of a notification. The admin user dialogs chain `||`, so an empty `detail`
    falls through; the login and registration pages use `??`, so only a missing
    or null `detail` falls through. */
module Messages {
  import opened Js

  /** `error?.data?.detail || error?.data?.message || fallback`, used by the admin
      user screens (UserManagement.tsx, CreateUserDialog.tsx, EditUserDialog.tsx). */
  function FailureText(error: Value, fallback: string): (r: Value)
    ensures Truthy(OptGet(OptGet(error, "data"), "detail")) ==> r == OptGet(OptGet(error, "data"), "detail")
    ensures !Truthy(OptGet(OptGet(error, "data"), "detail")) && Truthy(OptGet(OptGet(error, "data"), "message"))
      ==> r == OptGet(OptGet(error, "data"), "message")
    ensures !Truthy(OptGet(OptGet(error, "data"), "detail")) && !Truthy(OptGet(OptGet(error, "data"), "message"))
      ==> r == Str(fallback)
  {
    var data := OptGet(error, "data");
    Or(OptGet(data, "detail"), Or(OptGet(data, "message"), Str(fallback)))
  }

  /** `"data" in error ? error.data?.detail ?? fallback : "Something went wrong"`,
      used by the login and registration pages. The error of a failed request is
      always an object, so it is given as its fields. */
  function ErrorToast(error: map<string, Json>, fallback: string): (r: Value)
    ensures "data" !in error ==> r == Str("Something went wrong")
    ensures "data" in error && !Nullish(OptGet(Def(error["data"]), "detail"))
      ==> r == OptGet(Def(error["data"]), "detail")
    ensures !Nullish(r)
  {
    if "data" in error then Coalesce(OptGet(Def(error["data"]), "detail"), Str(fallback))
    else Str("Something went wrong")
  }

  /** `data?.message ?? fallback` for the success notification. */
  function SuccessToast(data: Value, fallback: string): (r: Value)
    ensures !Nullish(OptGet(data, "message")) ==> r == OptGet(data, "message")
    ensures Nullish(OptGet(data, "message")) ==> r == Str(fallback)
  {
    Coalesce(OptGet(data, "message"), Str(fallback))
  }

  /** An error body `{detail: ""}`: the `||` chain skips the empty detail and
      shows the fallback, while the `??` form shows the empty string. */
  lemma EmptyDetailFallbackStyles(fallback: string)
    requires fallback != ""
    ensures FailureText(Obj(map["data" := JObj(map["detail" := JStr("")])]), fallback) == Str(fallback)
    ensures ErrorToast(map["data" := JObj(map["detail" := JStr("")])], fallback) == Str("")
  {
  }

  /** With a non-empty fallback the `||` chain never yields a falsy text. */
  lemma FailureTextNeverBlank(error: Value, fallback: string)
    requires fallback != ""
    ensures Truthy(FailureText(error, fallback))
  {
  }
}
