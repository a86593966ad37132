/** The project endpoints (src/redux/features/project/projectApi.ts). None of
    them declares cache tags. */
module ProjectApi {
  import opened Wrappers
  import opened Js
  import opened Text
  import opened Http

  /** `createProject` forwards the request object it is given as the body. */
  datatype Call = GetProjects | CreateProject(data: Json) | GetProject(id: int) | GenerateSegments(projectId: int)

  predicate IsQuery(c: Call) {
    c.GetProjects? || c.GetProject?
  }

  function RequestFor(c: Call): (r: Request)
    ensures IsQuery(c) <==> r.verb == GET
    ensures !IsQuery(c) ==> r.verb == POST
    ensures r.credentials == Include <==> c.GenerateSegments?
    ensures c.CreateProject? ==> r.body == Some(c.data)
    ensures c.GenerateSegments? ==> r.body == Some(JObj(map["projectId" := JNum(c.projectId)]))
    ensures (|r.url| > 0 && r.url[0] == '/') <==> !c.GenerateSegments?
    ensures c.GetProjects? || c.CreateProject? ==> r.url == "/projects"
    ensures c.GetProject? ==> r.url == "/projects/" + IntToString(c.id)
    ensures c.GenerateSegments? ==> r.url == "projects/segment"
  {
    match c
    case GetProjects => UrlOnly("/projects")
    case CreateProject(data) => Request(POST, "/projects", Some(data), Unset)
    case GetProject(id) => UrlOnly("/projects/" + IntToString(id))
    case GenerateSegments(pid) =>
      Request(POST, "projects/segment", Some(JObj(map["projectId" := JNum(pid)])), Include)
  }

  /** The tags an endpoint provides or invalidates: the project API declares
      no tag types, so every endpoint has none of either. */
  function DeclaredTags(c: Call): seq<Tag> {
    []
  }

  /** Whatever the matching rule, creating a project stales no cached project
      entry, so a loaded project list is not refreshed by it. */
  lemma CreateStalesNothing(data: Json, q: Call)
    ensures !Stales(DeclaredTags(CreateProject(data)), DeclaredTags(q))
  {
  }

  lemma ProjectPathInjective(a: int, b: int)
    ensures RequestFor(GetProject(a)) == RequestFor(GetProject(b)) ==> a == b
  {
    if RequestFor(GetProject(a)) == RequestFor(GetProject(b)) {
      var pre := "/projects/";
      assert IntToString(a) == RequestFor(GetProject(a)).url[|pre|..];
      assert IntToString(b) == RequestFor(GetProject(b)).url[|pre|..];
      IntToStringInjective(a, b);
    }
  }

  /** Two calls that issue the same request are the same call: the verb, URL
      and body tell every endpoint and argument apart. */
  lemma RequestDeterminesCall(c1: Call, c2: Call)
    ensures RequestFor(c1) == RequestFor(c2) ==> c1 == c2
  {
    if RequestFor(c1) == RequestFor(c2) {
      if c1.GetProject? && c2.GetProject? {
        ProjectPathInjective(c1.id, c2.id);
      } else if c1.GenerateSegments? && c2.GenerateSegments? {
        assert RequestFor(c1).body.value.fields["projectId"] == JNum(c1.projectId);
      }
    }
  }
}
