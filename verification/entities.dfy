/** The records the front end exchanges with the backend: admin-managed users
    and story projects with their scenes. */
module Entities {
  import opened Wrappers

  /** The two account roles; the wire form is `"admin"` or `"user"`. */
  datatype Role = Admin | User

  function RoleName(r: Role): (s: string)
    ensures s == "admin" <==> r == Admin
    ensures s != ""
  {
    match r
    case Admin => "admin"
    case User => "user"
  }

  /** The role toggle `role === "admin" ? "user" : "admin"`. */
  function Flip(r: Role): (f: Role)
    ensures f != r
  {
    if r == Admin then User else Admin
  }

  lemma FlipTwice(r: Role)
    ensures Flip(Flip(r)) == r
  {
  }

  /** A user account as the admin endpoints return it. `created_at` and
      `updated_at` are absent (`None`) when the backend omits them. */
  datatype AdminUser = AdminUser(
    id: int,
    fullName: string,
    email: string,
    role: Role,
    created_at: Option<string>,
    updated_at: Option<string>)

  /** One scene of a segmented story. A path is `None` when the backend sends
      `null` for an asset that has not been generated yet; `character_paths[i]`
      belongs to `character_prompts[i]`. */
  datatype Scene = Scene(
    id: int,
    description: string,
    background_prompt: string,
    background_path: Option<string>,
    character_prompts: Option<seq<string>>,
    character_paths: Option<seq<Option<string>>>)

  datatype Project = Project(
    id: int,
    title: string,
    story_text: string,
    duration_sec: int,
    status: string,
    created_at: string,
    scenes: Option<seq<Scene>>)
}
