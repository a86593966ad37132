/** The current-project slice (src/redux/features/project/projectSlice.ts). */
module ProjectSlice {
  import opened Wrappers

  /** `currentProjectId` is `None` for `null`. */
  datatype State = State(currentProjectId: Option<int>)

  const Initial: State := State(None)

  datatype Action = SetCurrentProject(id: int) | ClearCurrentProject

  function Reduce(s: State, a: Action): (r: State)
    ensures a.SetCurrentProject? ==> r.currentProjectId == Some(a.id)
    ensures a.ClearCurrentProject? ==> r.currentProjectId.None?
  {
    match a
    case SetCurrentProject(id) => State(Some(id))
    case ClearCurrentProject => State(None)
  }

  lemma InitialHasNoProject()
    ensures Initial.currentProjectId.None?
  {
  }

  lemma ClearIdempotent(s: State)
    ensures Reduce(Reduce(s, ClearCurrentProject), ClearCurrentProject) == Reduce(s, ClearCurrentProject)
  {
  }

  /** Setting a project then clearing it returns to the initial state, from any state. */
  lemma SetThenClear(s: State, id: int)
    ensures Reduce(Reduce(s, SetCurrentProject(id)), ClearCurrentProject) == Initial
  {
  }

  /** The last `setCurrentProject` wins, whatever came before it. */
  lemma SetOverwrites(s: State, first: int, second: int)
    ensures Reduce(Reduce(s, SetCurrentProject(first)), SetCurrentProject(second)) == State(Some(second))
  {
  }
}
