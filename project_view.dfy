/** The data-synchronisation controller of the project view: three dependent collections
    (projects, tasks of the selected project, comments of the selected task), two selection cursors,
    a status filter, three loading flags and one shared error slot.

    Each of the three load effects is modelled by `Start*Load` (the effect body up to its `await`) and by
    `Resolve*`/`Fail` (what runs when the fetch settles). The per-run `cancelled` flag of the source is
    replaced by a generation counter per level: a write that changes a level's key cancels that level's
    run, as React runs the effect cleanup when a dependency changes (here at the write rather than at
    the next commit), and a settling run acts only if its generation is still the current one. Each write handler is split at its `await` into
    `Request*` (the local checks, returning the request sent to the server, if any) and a continuation
    (`ProjectCreated`, `TaskDeleted`, ..., given the server's reply), so any step may happen while a request is in flight. */
module ProjectView {
  import opened Basics
  import opened Text
  import opened IdLists
  import opened ViewTypes

  datatype Level = ProjectsLevel | TasksLevel | CommentsLevel

  /** The page request a load run sends (always page 0: only the parent id and the filter vary). */
  datatype Fetch =
    | FetchProjects
    | FetchTasks(projectId: int, status: Option<TaskStatus>)
    | FetchComments(taskId: int)

  /** The write request a handler sends once its local checks pass. */
  datatype Request =
    | CreateProject(name: string, description: Option<string>)
    | DeleteProject(projectId: int)
    | CreateTask(projectId: int, title: string, details: Option<string>, status: TaskStatus,
                 assigneeUsername: Option<string>)
    | DeleteTask(projectId: int, taskId: int)
    | UpdateTaskStatus(projectId: int, taskId: int, status: TaskStatus)
    | CreateComment(taskId: int, body: string)
    | DeleteComment(taskId: int, commentId: int)

  /** The latest load run of a level: its generation, and the fetch it still waits for (none once the
      fetch has settled, or when the run skipped the network). */
  datatype Run = Run(gen: nat, awaiting: Option<Fetch>)

  /** A level's run after a write to its key: the previous run is cancelled only if the key changed. */
  function Invalidated(r: Run, keyChanged: bool): (c: Run)
    ensures keyChanged ==> c.gen != r.gen && c.awaiting.None?
    ensures !keyChanged ==> c == r
  {
    if keyChanged then Run(r.gen + 1, None) else r
  }

  /** The whole state of the controller, as one value. */
  datatype State = State(
    projects: seq<Project>,
    selectedProjectId: Option<int>,
    tasks: seq<Task>,
    selectedTaskId: Option<int>,
    comments: seq<Comment>,
    statusFilter: StatusFilter,
    loadingProjects: bool,
    loadingTasks: bool,
    loadingComments: bool,
    error: Option<string>,
    projectsRun: Run,
    tasksRun: Run,
    commentsRun: Run)

  /** The task and status counts shown above the task list. */
  datatype Counts = Counts(total: nat, todo: nat, inProgress: nat, done: nat)

  const ProjectNameRequired := "Project name is required."
  const TaskTitleRequired := "Task title is required."

  class Controller {
    var projects: seq<Project>
    var selectedProjectId: Option<int>
    var tasks: seq<Task>
    var selectedTaskId: Option<int>
    var comments: seq<Comment>
    var statusFilter: StatusFilter
    var loadingProjects: bool
    var loadingTasks: bool
    var loadingComments: bool
    var error: Option<string>
    var projectsRun: Run
    var tasksRun: Run
    var commentsRun: Run

    ghost function Snapshot(): (s: State)
      reads this
    {
      State(projects, selectedProjectId, tasks, selectedTaskId, comments, statusFilter,
            loadingProjects, loadingTasks, loadingComments, error, projectsRun, tasksRun, commentsRun)
    }

    function RunOf(level: Level): (r: Run)
      reads this
    {
      match level
      case ProjectsLevel => projectsRun
      case TasksLevel => tasksRun
      case CommentsLevel => commentsRun
    }

    /** A run still waiting for its fetch asked for exactly what its level's key says now: a response
        can only be applied to the project, filter and task it was requested for. */
    ghost predicate Valid()
      reads this
    {
      ProjectsRunValid() && TasksRunValid() && CommentsRunValid()
    }

    ghost predicate ProjectsRunValid()
      reads this`projectsRun
    {
      projectsRun.awaiting.Some? ==> projectsRun.awaiting == Some(FetchProjects)
    }

    ghost predicate TasksRunValid()
      reads this`tasksRun, this`selectedProjectId, this`statusFilter
    {
      tasksRun.awaiting.Some? ==>
        selectedProjectId.Some? &&
        tasksRun.awaiting == Some(FetchTasks(selectedProjectId.value, StatusParam(statusFilter)))
    }

    ghost predicate CommentsRunValid()
      reads this`commentsRun, this`selectedTaskId
    {
      commentsRun.awaiting.Some? ==>
        selectedTaskId.Some? && commentsRun.awaiting == Some(FetchComments(selectedTaskId.value))
    }

    /** The initial state of the component. */
    constructor ()
      ensures Valid()
      ensures Snapshot() == State([], None, [], None, [], All, false, false, false, None,
                                  Run(0, None), Run(0, None), Run(0, None))
    {
      projects, selectedProjectId := [], None;
      tasks, selectedTaskId := [], None;
      comments, statusFilter := [], All;
      loadingProjects, loadingTasks, loadingComments := false, false, false;
      error := None;
      projectsRun, tasksRun, commentsRun := Run(0, None), Run(0, None), Run(0, None);
    }

    // ---- writes to the load keys ----

    method WriteSelectedProject(id: Option<int>)
      modifies this`selectedProjectId, this`tasksRun
      ensures selectedProjectId == id
      ensures tasksRun == Invalidated(old(tasksRun), id != old(selectedProjectId))
    {
      if id != selectedProjectId {
        tasksRun := Invalidated(tasksRun, true);
      }
      selectedProjectId := id;
    }

    method WriteSelectedTask(id: Option<int>)
      modifies this`selectedTaskId, this`commentsRun
      ensures selectedTaskId == id
      ensures commentsRun == Invalidated(old(commentsRun), id != old(selectedTaskId))
    {
      if id != selectedTaskId {
        commentsRun := Invalidated(commentsRun, true);
      }
      selectedTaskId := id;
    }

    /** Clicking a project selects it and clears the task selection. */
    method SelectProject(id: int)
      requires Valid()
      modifies this
      ensures Valid()
      ensures Snapshot() == old(Snapshot()).(
        selectedProjectId := Some(id),
        selectedTaskId := None,
        tasksRun := Invalidated(old(tasksRun), old(selectedProjectId) != Some(id)),
        commentsRun := Invalidated(old(commentsRun), old(selectedTaskId).Some?))
    {
      WriteSelectedProject(Some(id));
      WriteSelectedTask(None);
    }

    /** Clicking a task selects it. */
    method SelectTask(id: int)
      requires Valid()
      modifies this
      ensures Valid()
      ensures Snapshot() == old(Snapshot()).(
        selectedTaskId := Some(id),
        commentsRun := Invalidated(old(commentsRun), old(selectedTaskId) != Some(id)))
    {
      WriteSelectedTask(Some(id));
    }

    /** Clicking a filter button; a change of filter cancels the tasks run in flight. */
    method SetStatusFilter(f: StatusFilter)
      requires Valid()
      modifies this
      ensures Valid()
      ensures Snapshot() == old(Snapshot()).(
        statusFilter := f,
        tasksRun := Invalidated(old(tasksRun), old(statusFilter) != f))
    {
      if f != statusFilter {
        tasksRun := Invalidated(tasksRun, true);
      }
      statusFilter := f;
    }

    // ---- the three load effects ----

    /** The projects effect up to its `await`: the previous run is cancelled, the loading flag is raised,
        the shared error is cleared and the projects are fetched under a new generation. */
    method StartProjectsLoad() returns (gen: nat, fetch: Option<Fetch>)
      requires Valid()
      modifies this
      ensures Valid()
      ensures gen == old(projectsRun.gen) + 1 && fetch == Some(FetchProjects)
      ensures Snapshot() == old(Snapshot()).(loadingProjects := true, error := None, projectsRun := Run(gen, fetch))
    {
      gen, fetch := projectsRun.gen + 1, Some(FetchProjects);
      projectsRun := Run(gen, fetch);
      loadingProjects := true;
      error := None;
    }

    /** The tasks effect up to its `await`. The previous run is cancelled. With no project selected the
        tasks and the task selection are cleared without a fetch (the loading flag and the error are left
        alone); otherwise the loading flag is raised, the error is cleared and the tasks of the selected
        project under the current filter are fetched under a new generation. */
    method StartTasksLoad() returns (gen: nat, fetch: Option<Fetch>)
      requires Valid()
      modifies this
      ensures Valid()
      ensures gen == old(tasksRun.gen) + 1
      ensures old(selectedProjectId).None? ==>
        fetch.None? &&
        Snapshot() == old(Snapshot()).(
          tasks := [],
          selectedTaskId := None,
          tasksRun := Run(gen, None),
          commentsRun := Invalidated(old(commentsRun), old(selectedTaskId).Some?))
      ensures old(selectedProjectId).Some? ==>
        fetch == Some(FetchTasks(old(selectedProjectId).value, StatusParam(old(statusFilter)))) &&
        Snapshot() == old(Snapshot()).(loadingTasks := true, error := None, tasksRun := Run(gen, fetch))
    {
      gen := tasksRun.gen + 1;
      if selectedProjectId.None? {
        fetch := None;
        tasksRun := Run(gen, None);
        tasks := [];
        commentsRun := Invalidated(commentsRun, selectedTaskId.Some?);
        selectedTaskId := None;
        assert Snapshot() == old(Snapshot()).(tasks := [], selectedTaskId := None, tasksRun := Run(gen, None),
                                              commentsRun := Invalidated(old(commentsRun), old(selectedTaskId).Some?));
      } else {
        fetch := Some(FetchTasks(selectedProjectId.value, StatusParam(statusFilter)));
        tasksRun := Run(gen, fetch);
        loadingTasks := true;
        error := None;
        assert Snapshot() == old(Snapshot()).(loadingTasks := true, error := None, tasksRun := Run(gen, fetch));
      }
    }

    /** The comments effect up to its `await`. The previous run is cancelled. With no task selected the
        comments are cleared without a fetch; otherwise the loading flag is raised, the error is cleared
        and the comments of the selected task are fetched under a new generation. */
    method StartCommentsLoad() returns (gen: nat, fetch: Option<Fetch>)
      requires Valid()
      modifies this
      ensures Valid()
      ensures gen == old(commentsRun.gen) + 1
      ensures old(selectedTaskId).None? ==>
        fetch.None? && Snapshot() == old(Snapshot()).(comments := [], commentsRun := Run(gen, None))
      ensures old(selectedTaskId).Some? ==>
        fetch == Some(FetchComments(old(selectedTaskId).value)) &&
        Snapshot() == old(Snapshot()).(loadingComments := true, error := None, commentsRun := Run(gen, fetch))
    {
      gen := commentsRun.gen + 1;
      if selectedTaskId.None? {
        fetch := None;
        commentsRun := Run(gen, None);
        comments := [];
      } else {
        fetch := Some(FetchComments(selectedTaskId.value));
        commentsRun := Run(gen, fetch);
        loadingComments := true;
        error := None;
      }
    }

    /** The projects fetch of run `gen` succeeded. A superseded run changes nothing; the current run
        replaces the list with the page, selects the first project if none is selected, and lowers the
        loading flag. The error slot is left alone. */
    method ResolveProjects(gen: nat, page: seq<Project>) returns (applied: bool)
      requires Valid()
      modifies this
      ensures Valid()
      ensures applied == (gen == old(projectsRun.gen) && old(projectsRun.awaiting).Some?)
      ensures !applied ==> Snapshot() == old(Snapshot())
      ensures applied ==>
        var sel := DefaultSelection(old(selectedProjectId), page, ProjectId);
        Snapshot() == old(Snapshot()).(
          projects := page,
          selectedProjectId := sel,
          loadingProjects := false,
          projectsRun := Run(gen, None),
          tasksRun := Invalidated(old(tasksRun), sel != old(selectedProjectId)))
    {
      applied := gen == projectsRun.gen && projectsRun.awaiting.Some?;
      if applied {
        projects := page;
        if |page| > 0 {
          WriteSelectedProject(DefaultSelection(selectedProjectId, page, ProjectId));
        }
        loadingProjects := false;
        projectsRun := Run(gen, None);
      }
    }

    /** The tasks fetch of run `gen` succeeded. Only the current run acts, and it was requested for the
        project and filter selected now. It replaces the list with the page, keeps an existing task
        selection (or selects the first task), clears the selection on an empty page, and lowers the
        loading flag. */
    method ResolveTasks(gen: nat, page: seq<Task>) returns (applied: bool)
      requires Valid()
      modifies this
      ensures Valid()
      ensures applied == (gen == old(tasksRun.gen) && old(tasksRun.awaiting).Some?)
      ensures !applied ==> Snapshot() == old(Snapshot())
      ensures applied ==>
        old(selectedProjectId).Some? &&
        old(tasksRun.awaiting) == Some(FetchTasks(old(selectedProjectId).value, StatusParam(old(statusFilter))))
      ensures applied ==>
        var sel := if |page| > 0 then DefaultSelection(old(selectedTaskId), page, TaskId) else None;
        Snapshot() == old(Snapshot()).(
          tasks := page,
          selectedTaskId := sel,
          loadingTasks := false,
          tasksRun := Run(gen, None),
          commentsRun := Invalidated(old(commentsRun), sel != old(selectedTaskId)))
    {
      applied := gen == tasksRun.gen && tasksRun.awaiting.Some?;
      if applied {
        tasks := page;
        if |page| > 0 {
          WriteSelectedTask(DefaultSelection(selectedTaskId, page, TaskId));
        } else {
          WriteSelectedTask(None);
        }
        loadingTasks := false;
        tasksRun := Run(gen, None);
      }
    }

    /** The comments fetch of run `gen` succeeded: only the current run, requested for the task selected
        now, replaces the comments and lowers the loading flag. */
    method ResolveComments(gen: nat, page: seq<Comment>) returns (applied: bool)
      requires Valid()
      modifies this
      ensures Valid()
      ensures applied == (gen == old(commentsRun.gen) && old(commentsRun.awaiting).Some?)
      ensures !applied ==> Snapshot() == old(Snapshot())
      ensures applied ==>
        old(selectedTaskId).Some? && old(commentsRun.awaiting) == Some(FetchComments(old(selectedTaskId).value))
      ensures applied ==>
        Snapshot() == old(Snapshot()).(comments := page, loadingComments := false, commentsRun := Run(gen, None))
    {
      applied := gen == commentsRun.gen && commentsRun.awaiting.Some?;
      if applied {
        comments := page;
        loadingComments := false;
        commentsRun := Run(gen, None);
      }
    }

    /** The fetch of run `gen` of `level` failed. A superseded run changes nothing; the current run puts
        the message in the shared error slot and lowers the loading flag, leaving the collection and the
        selections as they were. */
    method Fail(level: Level, gen: nat, message: string) returns (applied: bool)
      requires Valid()
      modifies this
      ensures Valid()
      ensures applied == (gen == old(RunOf(level)).gen && old(RunOf(level)).awaiting.Some?)
      ensures !applied ==> Snapshot() == old(Snapshot())
      ensures applied && level == ProjectsLevel ==>
        Snapshot() == old(Snapshot()).(error := Some(message), loadingProjects := false, projectsRun := Run(gen, None))
      ensures applied && level == TasksLevel ==>
        Snapshot() == old(Snapshot()).(error := Some(message), loadingTasks := false, tasksRun := Run(gen, None))
      ensures applied && level == CommentsLevel ==>
        Snapshot() == old(Snapshot()).(error := Some(message), loadingComments := false, commentsRun := Run(gen, None))
    {
      applied := gen == RunOf(level).gen && RunOf(level).awaiting.Some?;
      if applied {
        error := Some(message);
        match level
        case ProjectsLevel =>
          loadingProjects := false;
          projectsRun := Run(gen, None);
        case TasksLevel =>
          loadingTasks := false;
          tasksRun := Run(gen, None);
        case CommentsLevel =>
          loadingComments := false;
          commentsRun := Run(gen, None);
      }
    }

    // ---- write handlers: the part before the `await` ----

    /** Submitting the new-project form: a blank name sets the error and sends nothing; otherwise the
        error is cleared and the trimmed name and (non-empty) trimmed description are sent. */
    method RequestCreateProject(nameInput: string, descriptionInput: string) returns (req: Option<Request>)
      requires Valid()
      modifies this`error
      ensures Valid()
      ensures Trim(nameInput) == [] ==> req.None? && error == Some(ProjectNameRequired)
      ensures Trim(nameInput) != [] ==>
        req == Some(CreateProject(Trim(nameInput), NonEmpty(Trim(descriptionInput)))) && error.None?
    {
      var name := Trim(nameInput);
      if name == [] {
        error := Some(ProjectNameRequired);
        req := None;
      } else {
        error := None;
        req := Some(CreateProject(name, NonEmpty(Trim(descriptionInput))));
      }
    }

    /** Deleting a project: nothing is sent unless the user confirms. `wasSelected` is the comparison
        the continuation uses, made against the selection of the moment the handler started. */
    method RequestDeleteProject(id: int, confirmed: bool) returns (req: Option<Request>, wasSelected: bool)
      requires Valid()
      modifies this`error
      ensures Valid()
      ensures wasSelected == (old(selectedProjectId) == Some(id))
      ensures !confirmed ==> req.None? && error == old(error)
      ensures confirmed ==> req == Some(DeleteProject(id)) && error.None?
    {
      wasSelected := selectedProjectId == Some(id);
      if !confirmed {
        req := None;
      } else {
        error := None;
        req := Some(DeleteProject(id));
      }
    }

    /** Submitting the new-task form: without a selected project nothing happens at all; a blank title
        sets the error and sends nothing; otherwise the error is cleared and the trimmed fields are sent
        for the selected project. */
    method RequestCreateTask(titleInput: string, detailsInput: string, status: TaskStatus, assigneeInput: string)
      returns (req: Option<Request>)
      requires Valid()
      modifies this`error
      ensures Valid()
      ensures selectedProjectId.None? ==> req.None? && error == old(error)
      ensures selectedProjectId.Some? && Trim(titleInput) == [] ==> req.None? && error == Some(TaskTitleRequired)
      ensures selectedProjectId.Some? && Trim(titleInput) != [] ==>
        error.None? &&
        req == Some(CreateTask(selectedProjectId.value, Trim(titleInput), NonEmpty(Trim(detailsInput)), status,
                               NonEmpty(Trim(assigneeInput))))
    {
      req := None;
      if selectedProjectId.Some? {
        var title := Trim(titleInput);
        if title == [] {
          error := Some(TaskTitleRequired);
        } else {
          error := None;
          req := Some(CreateTask(selectedProjectId.value, title, NonEmpty(Trim(detailsInput)), status,
                                 NonEmpty(Trim(assigneeInput))));
        }
      }
    }

    /** Deleting a task: nothing without a selected project or without confirmation. */
    method RequestDeleteTask(id: int, confirmed: bool) returns (req: Option<Request>, wasSelected: bool)
      requires Valid()
      modifies this`error
      ensures Valid()
      ensures wasSelected == (old(selectedTaskId) == Some(id))
      ensures selectedProjectId.None? || !confirmed ==> req.None? && error == old(error)
      ensures selectedProjectId.Some? && confirmed ==>
        req == Some(DeleteTask(selectedProjectId.value, id)) && error.None?
    {
      wasSelected := selectedTaskId == Some(id);
      req := None;
      if selectedProjectId.Some? && confirmed {
        error := None;
        req := Some(DeleteTask(selectedProjectId.value, id));
      }
    }

    /** Choosing a new status for a task: nothing without a selected project. */
    method RequestChangeStatus(id: int, status: TaskStatus) returns (req: Option<Request>, wasSelected: bool)
      requires Valid()
      modifies this`error
      ensures Valid()
      ensures wasSelected == (old(selectedTaskId) == Some(id))
      ensures selectedProjectId.None? ==> req.None? && error == old(error)
      ensures selectedProjectId.Some? ==>
        req == Some(UpdateTaskStatus(selectedProjectId.value, id, status)) && error.None?
    {
      wasSelected := selectedTaskId == Some(id);
      req := None;
      if selectedProjectId.Some? {
        error := None;
        req := Some(UpdateTaskStatus(selectedProjectId.value, id, status));
      }
    }

    /** Submitting a comment: silently nothing without a selected task or with a blank body. */
    method RequestAddComment(bodyInput: string) returns (req: Option<Request>)
      requires Valid()
      modifies this`error
      ensures Valid()
      ensures selectedTaskId.None? || Trim(bodyInput) == [] ==> req.None? && error == old(error)
      ensures selectedTaskId.Some? && Trim(bodyInput) != [] ==>
        req == Some(CreateComment(selectedTaskId.value, Trim(bodyInput))) && error.None?
    {
      req := None;
      if selectedTaskId.Some? {
        var body := Trim(bodyInput);
        if body != [] {
          error := None;
          req := Some(CreateComment(selectedTaskId.value, body));
        }
      }
    }

    /** Deleting a comment: nothing without a selected task or without confirmation. */
    method RequestDeleteComment(id: int, confirmed: bool) returns (req: Option<Request>)
      requires Valid()
      modifies this`error
      ensures Valid()
      ensures selectedTaskId.None? || !confirmed ==> req.None? && error == old(error)
      ensures selectedTaskId.Some? && confirmed ==>
        req == Some(DeleteComment(selectedTaskId.value, id)) && error.None?
    {
      req := None;
      if selectedTaskId.Some? && confirmed {
        error := None;
        req := Some(DeleteComment(selectedTaskId.value, id));
      }
    }

    // ---- write handlers: the continuation after the server replied ----

    /** A created project is prepended and selected (the task selection is not touched); a failure only
        sets the error. */
    method ProjectCreated(reply: Result<Project, string>)
      requires Valid()
      modifies this
      ensures Valid()
      ensures reply.Err? ==> Snapshot() == old(Snapshot()).(error := Some(reply.error))
      ensures reply.Ok? ==>
        Snapshot() == old(Snapshot()).(
          projects := [reply.value] + old(projects),
          selectedProjectId := Some(reply.value.id),
          tasksRun := Invalidated(old(tasksRun), old(selectedProjectId) != Some(reply.value.id)))
    {
      match reply
      case Err(message) =>
        error := Some(message);
      case Ok(project) =>
        projects := [project] + projects;
        WriteSelectedProject(Some(project.id));
    }

    /** A confirmed project deletion removes every project with that id; if it was the selected project
        when the handler started, the project selection, the tasks and the task selection are cleared. */
    method ProjectDeleted(id: int, wasSelected: bool, reply: Result<(), string>)
      requires Valid()
      modifies this
      ensures Valid()
      ensures reply.Err? ==> Snapshot() == old(Snapshot()).(error := Some(reply.error))
      ensures reply.Ok? && !wasSelected ==>
        Snapshot() == old(Snapshot()).(projects := RemoveId(old(projects), ProjectId, id))
      ensures reply.Ok? && wasSelected ==>
        Snapshot() == old(Snapshot()).(
          projects := RemoveId(old(projects), ProjectId, id),
          selectedProjectId := None,
          tasks := [],
          selectedTaskId := None,
          tasksRun := Invalidated(old(tasksRun), old(selectedProjectId).Some?),
          commentsRun := Invalidated(old(commentsRun), old(selectedTaskId).Some?))
    {
      match reply
      case Err(message) =>
        error := Some(message);
      case Ok(_) =>
        projects := RemoveId(projects, ProjectId, id);
        if wasSelected {
          ClearProjectSelection();
          assert Snapshot() == old(Snapshot()).(
            projects := RemoveId(old(projects), ProjectId, id),
            selectedProjectId := None,
            tasks := [],
            selectedTaskId := None,
            tasksRun := Invalidated(old(tasksRun), old(selectedProjectId).Some?),
            commentsRun := Invalidated(old(commentsRun), old(selectedTaskId).Some?));
        }
    }

    method ClearProjectSelection()
      modifies this`selectedProjectId, this`tasksRun, this`tasks, this`selectedTaskId, this`commentsRun
      ensures selectedProjectId.None? && tasks == [] && selectedTaskId.None?
      ensures tasksRun == Invalidated(old(tasksRun), old(selectedProjectId).Some?)
      ensures commentsRun == Invalidated(old(commentsRun), old(selectedTaskId).Some?)
    {
      WriteSelectedProject(None);
      tasks := [];
      WriteSelectedTask(None);
    }

    /** A created task is prepended and selected, whatever the active status filter. */
    method TaskCreated(reply: Result<Task, string>)
      requires Valid()
      modifies this
      ensures Valid()
      ensures reply.Err? ==> Snapshot() == old(Snapshot()).(error := Some(reply.error))
      ensures reply.Ok? ==>
        Snapshot() == old(Snapshot()).(
          tasks := [reply.value] + old(tasks),
          selectedTaskId := Some(reply.value.id),
          commentsRun := Invalidated(old(commentsRun), old(selectedTaskId) != Some(reply.value.id)))
    {
      match reply
      case Err(message) =>
        error := Some(message);
      case Ok(task) =>
        tasks := [task] + tasks;
        WriteSelectedTask(Some(task.id));
    }

    /** A confirmed task deletion removes every task with that id, and clears the task selection if the
        task was selected when the handler started. */
    method TaskDeleted(id: int, wasSelected: bool, reply: Result<(), string>)
      requires Valid()
      modifies this
      ensures Valid()
      ensures reply.Err? ==> Snapshot() == old(Snapshot()).(error := Some(reply.error))
      ensures reply.Ok? ==>
        Snapshot() == old(Snapshot()).(
          tasks := RemoveId(old(tasks), TaskId, id),
          selectedTaskId := if wasSelected then None else old(selectedTaskId),
          commentsRun := Invalidated(old(commentsRun), wasSelected && old(selectedTaskId).Some?))
    {
      match reply
      case Err(message) =>
        error := Some(message);
      case Ok(_) =>
        tasks := RemoveId(tasks, TaskId, id);
        if wasSelected {
          WriteSelectedTask(None);
        }
    }

    /** The server's version of the task replaces, by id, the one in the list (the filter is not
        re-applied). If the task was selected when the handler started, the selection is set to the
        returned id. */
    method StatusChanged(id: int, wasSelected: bool, reply: Result<Task, string>)
      requires Valid()
      modifies this
      ensures Valid()
      ensures reply.Err? ==> Snapshot() == old(Snapshot()).(error := Some(reply.error))
      ensures reply.Ok? ==>
        var sel := if wasSelected then Some(reply.value.id) else old(selectedTaskId);
        Snapshot() == old(Snapshot()).(
          tasks := ReplaceId(old(tasks), TaskId, id, reply.value),
          selectedTaskId := sel,
          commentsRun := Invalidated(old(commentsRun), sel != old(selectedTaskId)))
      ensures reply.Ok? && reply.value.id == id && (wasSelected ==> old(selectedTaskId) == Some(id)) ==>
        selectedTaskId == old(selectedTaskId) && commentsRun == old(commentsRun)
    {
      match reply
      case Err(message) =>
        error := Some(message);
      case Ok(updated) =>
        tasks := ReplaceId(tasks, TaskId, id, updated);
        if wasSelected {
          WriteSelectedTask(Some(updated.id));
        }
    }

    /** A created comment is appended at the end. */
    method CommentAdded(reply: Result<Comment, string>)
      requires Valid()
      modifies this
      ensures Valid()
      ensures reply.Err? ==> Snapshot() == old(Snapshot()).(error := Some(reply.error))
      ensures reply.Ok? ==> Snapshot() == old(Snapshot()).(comments := old(comments) + [reply.value])
    {
      match reply
      case Err(message) =>
        error := Some(message);
      case Ok(comment) =>
        comments := comments + [comment];
    }

    /** A confirmed comment deletion removes every comment with that id. */
    method CommentDeleted(id: int, reply: Result<(), string>)
      requires Valid()
      modifies this
      ensures Valid()
      ensures reply.Err? ==> Snapshot() == old(Snapshot()).(error := Some(reply.error))
      ensures reply.Ok? ==> Snapshot() == old(Snapshot()).(comments := RemoveId(old(comments), CommentId, id))
    {
      match reply
      case Err(message) =>
        error := Some(message);
      case Ok(_) =>
        comments := RemoveId(comments, CommentId, id);
    }

    // ---- derived values ----

    /** The selected project: the first project in the list carrying the selected id, if any. */
    function SelectedProject(): (r: Option<Project>)
      reads this
      ensures r.Some? ==> r.value in projects && selectedProjectId == Some(r.value.id)
      ensures r.None? <==> selectedProjectId.None? || selectedProjectId.value !in Ids(projects, ProjectId)
      ensures r.Some? ==> exists i :: FirstWithId(projects, ProjectId, selectedProjectId.value, i) && projects[i] == r.value
    {
      if selectedProjectId.None? then None else FindId(projects, ProjectId, selectedProjectId.value)
    }

    /** The selected task: the first task in the list carrying the selected id, if any. */
    function SelectedTask(): (r: Option<Task>)
      reads this
      ensures r.Some? ==> r.value in tasks && selectedTaskId == Some(r.value.id)
      ensures r.None? <==> selectedTaskId.None? || selectedTaskId.value !in Ids(tasks, TaskId)
      ensures r.Some? ==> exists i :: FirstWithId(tasks, TaskId, selectedTaskId.value, i) && tasks[i] == r.value
    {
      if selectedTaskId.None? then None else FindId(tasks, TaskId, selectedTaskId.value)
    }

    /** The counts shown for the task list: the three status counts add up to the total. */
    function TaskCounts(): (c: Counts)
      reads this
      ensures c.total == |tasks|
      ensures c.todo + c.inProgress + c.done == c.total
    {
      StatusCountsSum(tasks);
      Counts(|tasks|, CountStatus(tasks, Todo), CountStatus(tasks, InProgress), CountStatus(tasks, Done))
    }
  }
}
