/** The project page (ProjectDetail.tsx) and the dialog that creates a project
    (CreateProjectDialog.tsx). */
module ProjectView {
  import opened Wrappers
  import opened Js
  import opened Text
  import opened Entities
  import opened Validation
  import opened ProjectApi

  // ---------------------------------------------------------------------------
  // Which screen shows

  datatype Screen = Spinner | NotFound | Detail(project: Project)

  /** A spinner while loading; "Project not found" on an error or when no
      project came back; the project otherwise. */
  function ScreenFor(isLoading: bool, isError: bool, project: Option<Project>): (v: Screen)
    ensures v.Spinner? <==> isLoading
    ensures v.NotFound? <==> !isLoading && (isError || project.None?)
    ensures v.Detail? ==> project == Some(v.project) && !isError
  {
    if isLoading then Spinner
    else if isError || project.None? then NotFound
    else Detail(project.value)
  }

  // ---------------------------------------------------------------------------
  // The action bar

  datatype Action = SegmentIntoScenes | GenerateAnimation | PlayVideo | NoAction

  /** The one button the status calls for; unknown statuses show none. */
  function ActionFor(status: string): (a: Action)
    ensures a == SegmentIntoScenes <==> status == "draft"
    ensures a == GenerateAnimation <==> status == "segmented"
    ensures a == PlayVideo <==> status == "completed"
  {
    if status == "draft" then SegmentIntoScenes
    else if status == "segmented" then GenerateAnimation
    else if status == "completed" then PlayVideo
    else NoAction
  }

  /** "Segment into Scenes" sends the route's id to the segmentation endpoint and
      at once asks for the project again (the refetch does not wait for the
      segmentation to finish). Only this button issues a request. */
  function ActionRequests(a: Action, routeId: int): (r: seq<Call>)
    ensures |r| > 0 <==> a == SegmentIntoScenes
    ensures a == SegmentIntoScenes ==> r == [GenerateSegments(routeId), GetProject(routeId)]
  {
    if a == SegmentIntoScenes then [GenerateSegments(routeId), GetProject(routeId)] else []
  }

  /** Only a draft project can be segmented from this page, and the request names
      the route's project and then reloads that project. */
  lemma SegmentingSendsRouteId(p: Project, routeId: int)
    ensures |ActionRequests(ActionFor(p.status), routeId)| > 0 ==> p.status == "draft"
    ensures p.status == "draft" ==>
      RequestFor(ActionRequests(ActionFor(p.status), routeId)[0]).body == Some(JObj(map["projectId" := JNum(routeId)]))
      && RequestFor(ActionRequests(ActionFor(p.status), routeId)[1]).url == "/projects/" + IntToString(routeId)
  {
  }

  /** The segmentation requests can only be issued from a loaded project page:
      not while loading, not after an error, and only for a draft. */
  lemma SegmentOnlyFromLoadedDraft(isLoading: bool, isError: bool, project: Option<Project>, routeId: int)
    ensures (ScreenFor(isLoading, isError, project).Detail?
             && |ActionRequests(ActionFor(ScreenFor(isLoading, isError, project).project.status), routeId)| > 0)
      <==> !isLoading && !isError && project.Some? && project.value.status == "draft"
  {
  }

  // ---------------------------------------------------------------------------
  // Scenes and characters

  /** `project.scenes?.length || 0`. */
  function SceneCount(p: Project): (n: nat)
    ensures p.scenes.None? ==> n == 0
    ensures p.scenes.Some? ==> n == |p.scenes.value|
  {
    if p.scenes.Some? then |p.scenes.value| else 0
  }

  /** The scene grid shows when there is at least one scene; otherwise the
      "No scenes yet" card does. */
  predicate ShowsSceneGrid(p: Project) {
    p.scenes.Some? && |p.scenes.value| > 0
  }

  lemma SceneGridIffScenes(p: Project)
    ensures ShowsSceneGrid(p) <==> SceneCount(p) > 0
  {
  }

  /** `scene.character_prompts?.length || 0`. */
  function CharacterCount(s: Scene): (n: nat)
    ensures s.character_prompts.None? ==> n == 0
    ensures s.character_prompts.Some? ==> n == |s.character_prompts.value|
  {
    if s.character_prompts.Some? then |s.character_prompts.value| else 0
  }

  /** The background is done when `background_path` is truthy. */
  predicate BackgroundDone(s: Scene) {
    s.background_path.Some? && s.background_path.value != ""
  }

  /** `scene.character_paths?.[i]`: undefined when the list is missing or too
      short, null when the backend sent null. */
  function CharacterPath(s: Scene, i: nat): (v: Value)
    ensures s.character_paths.None? ==> v == Undefined
    ensures s.character_paths.Some? && i >= |s.character_paths.value| ==> v == Undefined
  {
    match s.character_paths
    case None => Undefined
    case Some(paths) =>
      if i >= |paths| then Undefined
      else if paths[i].None? then Def(JNull)
      else Str(paths[i].value)
  }

  /** The character shows "Ready" when its path is truthy. */
  predicate CharacterReady(s: Scene, i: nat) {
    Truthy(CharacterPath(s, i))
  }

  lemma CharacterReadyIff(s: Scene, i: nat)
    ensures CharacterReady(s, i) <==>
      s.character_paths.Some? && i < |s.character_paths.value|
      && s.character_paths.value[i].Some? && s.character_paths.value[i].value != ""
  {
  }

  /** `prompt.split(",")[0]`: the character's name is the prompt up to its first comma. */
  function CharacterLabel(prompt: string): (r: string)
    ensures ',' !in r && r <= prompt
    ensures ',' !in prompt ==> r == prompt
    ensures r == prompt || prompt[|r|] == ','
  {
    BeforeFirst(prompt, ',')
  }

  // ---------------------------------------------------------------------------
  // The "generating" markers

  /** `${sceneId}-${index}`: the marker of one character button. */
  function GeneratingKey(sceneId: int, index: nat): string {
    IntToString(sceneId) + "-" + NatToString(index)
  }

  lemma NoDashInDigits(i: nat)
    ensures '-' !in NatToString(i)
  {
  }

  /** Different buttons get different markers, also for negative scene ids,
      whose rendering starts with a minus sign of its own. */
  lemma {:induction false} GeneratingKeyInjective(a: int, i: nat, b: int, j: nat)
    requires GeneratingKey(a, i) == GeneratingKey(b, j)
    ensures a == b && i == j
  {
    NoDashInDigits(i);
    NoDashInDigits(j);
    assert GeneratingKey(a, i) == IntToString(a) + ['-'] + NatToString(i);
    assert GeneratingKey(b, j) == IntToString(b) + ['-'] + NatToString(j);
    SplitAtLastSeparator(IntToString(a), NatToString(i), IntToString(b), NatToString(j), '-');
    IntToStringInjective(a, b);
    NatToStringInjective(i, j);
  }

  /** `generatingBg` and `generatingChar`. Clicking sets them; nothing clears
      them while the page stays mounted. */
  datatype Generating = Generating(background: Option<int>, character: Option<string>)

  const NothingGenerating: Generating := Generating(None, None)

  datatype Click = BackgroundClicked(sceneId: int) | CharacterClicked(sceneId: int, index: nat)

  function Press(g: Generating, c: Click): (h: Generating)
    ensures c.BackgroundClicked? ==> h.background == Some(c.sceneId) && h.character == g.character
    ensures c.CharacterClicked? ==> h.background == g.background
  {
    match c
    case BackgroundClicked(id) => g.(background := Some(id))
    case CharacterClicked(id, i) => g.(character := Some(GeneratingKey(id, i)))
  }

  predicate BackgroundButtonBusy(g: Generating, s: Scene) {
    g.background == Some(s.id)
  }

  /** The background cell of a scene card: the "Done" badge when the
      background exists, otherwise the "Generate BG" button, spinning while its
      scene is the one being generated. */
  datatype BackgroundCell = DoneBadge | BackgroundButton(busy: bool)

  function BackgroundCellFor(s: Scene, g: Generating): (c: BackgroundCell)
    ensures c == DoneBadge <==> BackgroundDone(s)
    ensures c.BackgroundButton? ==> (c.busy <==> BackgroundButtonBusy(g, s))
  {
    if BackgroundDone(s) then DoneBadge else BackgroundButton(BackgroundButtonBusy(g, s))
  }

  /** On a freshly mounted page no background button spins; after a click on a
      scene's button, the cards with that scene id that still lack a background
      spin and every other card's button is idle. */
  lemma BackgroundCellAfterClick(s: Scene, sceneId: int)
    ensures BackgroundCellFor(s, NothingGenerating) == (if BackgroundDone(s) then DoneBadge else BackgroundButton(false))
    ensures BackgroundCellFor(s, Press(NothingGenerating, BackgroundClicked(sceneId)))
      == (if BackgroundDone(s) then DoneBadge else BackgroundButton(s.id == sceneId))
  {
  }

  predicate CharacterButtonBusy(g: Generating, s: Scene, i: nat) {
    g.character == Some(GeneratingKey(s.id, i))
  }

  /** After a character click exactly that scene's character button spins,
      whatever spun before. */
  lemma OnlyClickedCharacterSpins(g: Generating, sceneId: int, i: nat, s: Scene, j: nat)
    ensures CharacterButtonBusy(Press(g, CharacterClicked(sceneId, i)), s, j) <==> s.id == sceneId && j == i
  {
    if CharacterButtonBusy(Press(g, CharacterClicked(sceneId, i)), s, j) {
      GeneratingKeyInjective(s.id, j, sceneId, i);
    }
  }

  /** A background click marks every scene with that id, and no other. */
  lemma OnlyClickedBackgroundSpins(g: Generating, sceneId: int, s: Scene)
    ensures BackgroundButtonBusy(Press(g, BackgroundClicked(sceneId)), s) <==> s.id == sceneId
  {
  }

  /** One line of a scene's character list. */
  datatype CharacterLine =
    | ReadyLine(name: string)
    | ButtonLine(name: string, caption: string, busy: bool)

  function LineFor(s: Scene, g: Generating, i: nat, prompt: string): CharacterLine {
    if CharacterReady(s, i) then ReadyLine(CharacterLabel(prompt))
    else ButtonLine(CharacterLabel(prompt), "Char " + NatToString(i + 1), CharacterButtonBusy(g, s, i))
  }

  /** The character list of a scene: one line per prompt, "Ready" where the path
      is truthy and a "Char n" button otherwise; empty ("No characters
      detected") without prompts. */
  function CharacterLines(s: Scene, g: Generating): (r: seq<CharacterLine>)
    ensures |r| == CharacterCount(s)
    ensures forall i :: 0 <= i < |r| ==>
      r[i].name == CharacterLabel(s.character_prompts.value[i])
      && (r[i].ReadyLine? <==> CharacterReady(s, i))
      && (r[i].ButtonLine? ==> (r[i].busy <==> CharacterButtonBusy(g, s, i)))
      && (r[i].ButtonLine? ==> r[i].caption == "Char " + NatToString(i + 1))
  {
    match s.character_prompts
    case None => []
    case Some(prompts) => seq(|prompts|, i requires 0 <= i < |prompts| => LineFor(s, g, i, prompts[i]))
  }

  /** Line `j` of a scene's list after character `i` of that scene was clicked:
      it reads "Ready" exactly when the backend sent a non-empty path for it,
      it is named by its prompt up to the first comma, and, when it is a
      button, it spins exactly when it is the clicked one. */
  lemma CharacterLineAfterClick(s: Scene, g: Generating, i: nat, j: nat)
    requires j < CharacterCount(s)
    ensures var line := CharacterLines(s, Press(g, CharacterClicked(s.id, i)))[j];
      && (line.ReadyLine? <==> s.character_paths.Some? && j < |s.character_paths.value|
                               && s.character_paths.value[j].Some? && s.character_paths.value[j].value != "")
      && (line.ButtonLine? ==> (line.busy <==> j == i))
      && (line.name == s.character_prompts.value[j] || s.character_prompts.value[j][|line.name|] == ',')
  {
    CharacterReadyIff(s, j);
    OnlyClickedCharacterSpins(g, s.id, i, s, j);
  }

  // ---------------------------------------------------------------------------
  // Creating a project

  /** The dialog's fields. The duration input is registered without a numeric
      conversion, so its value is the input's text; it starts at "25". */
  datatype ProjectForm = ProjectForm(title: string, story_text: string, duration_sec: string)

  const BlankProjectForm: ProjectForm := ProjectForm("", "", "25")

  /** Title and story are required; the duration has no rule (the 10 to 30 hint
      and the input's min and max are not enforced with `noValidate`). */
  predicate ProjectFormAccepts(f: ProjectForm) {
    Required(f.title) && Required(f.story_text)
  }

  function ProjectPayload(f: ProjectForm): Json {
    JObj(map["title" := JStr(f.title), "story_text" := JStr(f.story_text), "duration_sec" := JStr(f.duration_sec)])
  }

  function SubmitProject(f: ProjectForm): (r: Option<Call>)
    ensures r.Some? <==> f.title != "" && f.story_text != ""
    ensures r.Some? ==> RequestFor(r.value).url == "/projects" && RequestFor(r.value).verb.POST?
    ensures r.Some? ==> RequestFor(r.value).body == Some(ProjectPayload(f))
  {
    if ProjectFormAccepts(f) then Some(CreateProject(ProjectPayload(f))) else None
  }

  /** The duration reaches the backend as the input's text, unchecked: a
      duration outside 10 to 30 is sent as typed, and an untouched form sends
      the text "25", not the number. */
  lemma DurationSentAsText(title: string, story: string, d: string)
    requires title != "" && story != ""
    ensures RequestFor(SubmitProject(ProjectForm(title, story, d)).value).body.value.fields["duration_sec"] == JStr(d)
    ensures SubmitProject(BlankProjectForm.(title := title, story_text := story)).value.data.fields["duration_sec"] == JStr("25")
  {
  }

  /** The notification after submitting: fixed texts; the error's content is not shown. */
  function ProjectCreatedNotice(succeeded: bool): (r: (string, bool))
    ensures r.1 <==> succeeded
    ensures succeeded ==> r.0 == "Project is created successfully"
    ensures !succeeded ==> r.0 == "Something wrong happening while creating project"
  {
    if succeeded then ("Project is created successfully", true)
    else ("Something wrong happening while creating project", false)
  }

  /** The two notices differ, so the text tells the outcome, while no server
      text ever reaches it. */
  lemma NoticeTellsOutcome(a: bool, b: bool)
    ensures ProjectCreatedNotice(a).0 == ProjectCreatedNotice(b).0 ==> a == b
  {
  }
}
