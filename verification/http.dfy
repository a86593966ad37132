/** The shape of one HTTP call as an endpoint declaration describes it, and the
    cache tags endpoints provide and invalidate. */
module Http {
  import opened Wrappers
  import opened Js

  datatype Method = GET | POST | PUT | PATCH | DELETE

  /** `Include` when the declaration sets `credentials: "include"`; `Unset` when it
      leaves the field out and the shared base query decides. */
  datatype Credentials = Include | Unset

  /** What an endpoint's `query` function returns: the HTTP method (`verb`), the
      URL, the body (`None` when none is sent) and the credentials mode. */
  datatype Request = Request(verb: Method, url: string, body: Option<Json>, credentials: Credentials)

  /** A `query` that returns a bare URL string: a GET with neither body nor
      credentials field. */
  function UrlOnly(url: string): (r: Request)
    ensures r.verb == GET && r.url == url
    ensures r.body.None? && r.credentials == Unset
  {
    Request(GET, url, None, Unset)
  }

  /** A cache tag: a type-level tag such as `"AdminUsers"`, or `{type, id}`. */
  datatype Tag = TypeTag(kind: string) | IdTag(kind: string, id: int)

  /** ASSUMED, not part of this repository: the caching library's matching rule.
      An invalidated type-level tag stales every entry that provided any tag of
      that type; an invalidated `{type, id}` tag stales only entries that
      provided that same tag. */
  predicate Hits(invalidated: Tag, provided: Tag) {
    match invalidated
    case TypeTag(k) => provided.kind == k
    case IdTag(k, id) => provided == IdTag(k, id)
  }

  /** Under the assumed rule, whether a mutation that invalidated `invalidated`
      stales a cache entry that provided `provided`. */
  predicate Stales(invalidated: seq<Tag>, provided: seq<Tag>) {
    exists i, j :: 0 <= i < |invalidated| && 0 <= j < |provided| && Hits(invalidated[i], provided[j])
  }

  lemma NothingInvalidatedStalesNothing(provided: seq<Tag>)
    ensures !Stales([], provided)
  {
  }
}
