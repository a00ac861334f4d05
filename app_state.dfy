/** The client's application state and its reducer. The reducer builds a new
    state from the old one and an action; it reads a project's `id` only,
    an optional field compared with `===`, so two projects without an id
    compare equal. */
module AppState {
  import opened JsValues

  /** A project as the client holds it; `id` is optional in the client's type. */
  datatype ClientProject = ClientProject(
    id: Option<string>,
    name: string,
    description: Option<string>,
    status: Option<string>)

  /** A work item as the client holds it. */
  datatype ClientWorkItem = ClientWorkItem(
    id: Option<string>,
    projectId: string,
    name: string,
    unit: string)

  datatype State = State(
    projects: seq<ClientProject>,
    currentProject: Option<ClientProject>,
    workItems: seq<ClientWorkItem>,
    loading: bool,
    error: Option<string>)

  /** The handled actions, one per `type`. */
  datatype Action =
    | SetLoading(loading: bool)
    | SetError(error: Option<string>)
    | SetProjects(projects: seq<ClientProject>)
    | SetCurrentProject(current: Option<ClientProject>)
    | SetWorkItems(workItems: seq<ClientWorkItem>)
    | AddProject(project: ClientProject)
    | UpdateProject(project: ClientProject)
    | DeleteProject(id: string)
    | AddWorkItem(workItem: ClientWorkItem)

  const InitialState: State := State([], None, [], false, None)

  /** `state.currentProject?.id`: undefined when there is no current project. */
  function CurrentId(current: Option<ClientProject>): Option<string> {
    match current
    case None => None
    case Some(p) => p.id
  }

  /** `projects.map(p => p.id === payload.id ? payload : p)` */
  function ReplaceById(projects: seq<ClientProject>, payload: ClientProject): (r: seq<ClientProject>)
    ensures |r| == |projects|
    ensures forall i :: 0 <= i < |r| ==> r[i] == if projects[i].id == payload.id then payload else projects[i]
  {
    if projects == [] then []
    else [if projects[0].id == payload.id then payload else projects[0]] + ReplaceById(projects[1..], payload)
  }

  /** `projects.filter(p => p.id !== id)` */
  function WithoutId(projects: seq<ClientProject>, id: string): (r: seq<ClientProject>)
    ensures |r| <= |projects|
    ensures forall p :: p in r <==> p in projects && p.id != Some(id)
  {
    if projects == [] then []
    else if projects[0].id == Some(id) then WithoutId(projects[1..], id)
    else [projects[0]] + WithoutId(projects[1..], id)
  }

  /** `appReducer` */
  function AppReducer(state: State, action: Action): (r: State)
    ensures r.loading == (action.SetLoading? && action.loading)
    ensures !action.SetError? ==> r.error == state.error
    ensures !(action.SetWorkItems? || action.AddWorkItem?) ==> r.workItems == state.workItems
    ensures action.SetLoading? || action.SetError? || action.SetWorkItems? || action.AddWorkItem?
            ==> r.projects == state.projects && r.currentProject == state.currentProject
    ensures action.SetProjects? || action.AddProject? ==> r.currentProject == state.currentProject
  {
    match action
    case SetLoading(b) => state.(loading := b)
    case SetError(e) => state.(error := e, loading := false)
    case SetProjects(ps) => state.(projects := ps, loading := false)
    case SetCurrentProject(p) => state.(currentProject := p, loading := false)
    case SetWorkItems(ws) => state.(workItems := ws, loading := false)
    case AddProject(p) => state.(projects := state.projects + [p], loading := false)
    case UpdateProject(p) =>
      state.(projects := ReplaceById(state.projects, p),
             currentProject := if CurrentId(state.currentProject) == p.id then Some(p) else state.currentProject,
             loading := false)
    case DeleteProject(id) =>
      state.(projects := WithoutId(state.projects, id),
             currentProject := if CurrentId(state.currentProject) == Some(id) then None else state.currentProject,
             loading := false)
    case AddWorkItem(w) => state.(workItems := state.workItems + [w], loading := false)
  }

  /** The initial state: no data, no error, not loading. */
  lemma InitialStateEmpty()
    ensures InitialState.projects == [] && InitialState.workItems == []
    ensures InitialState.currentProject == None && InitialState.error == None && !InitialState.loading
  {
  }

  /** `SET_LOADING` changes `loading` and nothing else; every other action
      leaves the state not loading. */
  lemma LoadingFlag(state: State, action: Action)
    ensures var r := AppReducer(state, action);
      action.SetLoading? ==>
        && r.loading == action.loading && r.projects == state.projects
        && r.currentProject == state.currentProject && r.workItems == state.workItems
        && r.error == state.error
    ensures !action.SetLoading? ==> !AppReducer(state, action).loading
  {
  }

  /** Each `SET_*` action replaces its own field (and `loading`) and keeps the others. */
  lemma SetActionsReplaceOneField(state: State, action: Action)
    ensures var r := AppReducer(state, action);
      action.SetError? ==>
        && r.error == action.error && !r.loading && r.projects == state.projects
        && r.currentProject == state.currentProject && r.workItems == state.workItems
    ensures var r := AppReducer(state, action);
      action.SetProjects? ==>
        && r.projects == action.projects && !r.loading && r.currentProject == state.currentProject
        && r.workItems == state.workItems && r.error == state.error
    ensures var r := AppReducer(state, action);
      action.SetCurrentProject? ==>
        && r.currentProject == action.current && !r.loading && r.projects == state.projects
        && r.workItems == state.workItems && r.error == state.error
    ensures var r := AppReducer(state, action);
      action.SetWorkItems? ==>
        && r.workItems == action.workItems && !r.loading && r.projects == state.projects
        && r.currentProject == state.currentProject && r.error == state.error
  {
  }

  /** `SET_ERROR` keeps the data. */
  lemma SetErrorKeepsData(state: State, e: Option<string>)
    ensures var r := AppReducer(state, SetError(e));
      r.projects == state.projects && r.currentProject == state.currentProject
      && r.workItems == state.workItems && r.error == e && !r.loading
  {
  }

  /** The add actions append the payload; the old list is a prefix of the new. */
  lemma AddAppends(state: State, p: ClientProject, w: ClientWorkItem)
    ensures var r := AppReducer(state, AddProject(p));
      |r.projects| == |state.projects| + 1 && r.projects[..|state.projects|] == state.projects
      && r.projects[|state.projects|] == p && r.workItems == state.workItems
    ensures var r := AppReducer(state, AddWorkItem(w));
      |r.workItems| == |state.workItems| + 1 && r.workItems[..|state.workItems|] == state.workItems
      && r.workItems[|state.workItems|] == w && r.projects == state.projects
  {
    var r := AppReducer(state, AddProject(p));
    assert r.projects[..|state.projects|] == state.projects;
    var t := AppReducer(state, AddWorkItem(w));
    assert t.workItems[..|state.workItems|] == state.workItems;
  }

  /** `UPDATE_PROJECT` keeps the list's length and order, replaces exactly the
      projects whose id equals the payload's, and makes the payload current
      exactly when the current project's id (undefined when there is none)
      equals the payload's. */
  lemma UpdateProjectEffect(state: State, p: ClientProject)
    ensures var r := AppReducer(state, UpdateProject(p));
      && |r.projects| == |state.projects|
      && (forall i :: 0 <= i < |r.projects| && state.projects[i].id == p.id ==> r.projects[i] == p)
      && (forall i :: 0 <= i < |r.projects| && state.projects[i].id != p.id ==> r.projects[i] == state.projects[i])
      && (r.currentProject == Some(p) || r.currentProject == state.currentProject)
      && (CurrentId(state.currentProject) == p.id ==> r.currentProject == Some(p))
      && (CurrentId(state.currentProject) != p.id ==> r.currentProject == state.currentProject)
      && r.workItems == state.workItems && r.error == state.error
  {
  }

  /** With no current project, an update whose payload has no id becomes the
      current project: `undefined === undefined`. */
  lemma UpdateWithoutIdBecomesCurrent(state: State, p: ClientProject)
    requires state.currentProject == None && p.id == None
    ensures AppReducer(state, UpdateProject(p)).currentProject == Some(p)
  {
  }

  /** `DELETE_PROJECT` removes exactly the projects with that id and clears
      the current project exactly when its id is that id. */
  lemma DeleteProjectEffect(state: State, id: string)
    ensures var r := AppReducer(state, DeleteProject(id));
      && (forall q :: q in r.projects <==> q in state.projects && q.id != Some(id))
      && (CurrentId(state.currentProject) == Some(id) ==> r.currentProject == None)
      && (CurrentId(state.currentProject) != Some(id) ==> r.currentProject == state.currentProject)
      && r.workItems == state.workItems && r.error == state.error
  {
  }

  /** The filter keeps the survivors in their relative order: it distributes
      over concatenation, a single project being kept exactly when its id differs. */
  lemma {:induction false} WithoutIdAppend(a: seq<ClientProject>, b: seq<ClientProject>, id: string)
    ensures WithoutId(a + b, id) == WithoutId(a, id) + WithoutId(b, id)
  {
    if a != [] {
      assert (a + b)[0] == a[0];
      assert (a + b)[1..] == a[1..] + b;
      WithoutIdAppend(a[1..], b, id);
      if a[0].id != Some(id) {
        assert WithoutId(a + b, id) == [a[0]] + WithoutId(a[1..] + b, id);
        assert [a[0]] + (WithoutId(a[1..], id) + WithoutId(b, id))
               == ([a[0]] + WithoutId(a[1..], id)) + WithoutId(b, id);
      }
    } else {
      assert a + b == b;
    }
  }

  lemma WithoutIdSingle(p: ClientProject, id: string)
    ensures WithoutId([p], id) == if p.id == Some(id) then [] else [p]
  {
    assert [p][1..] == [];
  }

  /** A list without the id is left as it is. */
  lemma {:induction false} WithoutIdAbsent(projects: seq<ClientProject>, id: string)
    requires forall p :: p in projects ==> p.id != Some(id)
    ensures WithoutId(projects, id) == projects
  {
    if projects != [] {
      WithoutIdAbsent(projects[1..], id);
      assert projects == [projects[0]] + projects[1..];
    }
  }

  /** Deleting twice with the same id is deleting once. */
  lemma DeleteIdempotent(state: State, id: string)
    ensures var once := AppReducer(state, DeleteProject(id));
      AppReducer(once, DeleteProject(id)) == once
  {
    var once := AppReducer(state, DeleteProject(id));
    WithoutIdAbsent(once.projects, id);
  }

  /** Updating twice with the same payload is updating once. */
  lemma UpdateIdempotent(state: State, p: ClientProject)
    ensures var once := AppReducer(state, UpdateProject(p));
      AppReducer(once, UpdateProject(p)) == once
  {
    var once := AppReducer(state, UpdateProject(p));
    var twice := AppReducer(once, UpdateProject(p));
    assert twice.projects == once.projects;
  }
}
