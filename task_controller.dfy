/** `TaskController`: the task endpoints under `/api/projects/{projectId}/tasks`. An exception the
    handler throws is returned as `Err(Thrown)`; its translation into an HTTP response is not part
    of this model. */
module TaskController {
  import opened Basics
  import opened Users
  import opened Tasks
  import PageableUtils

  const Ok200 := 200
  const Created201 := 201
  const NoContent204 := 204
  const BadRequest400 := 400
  const NotFound404 := 404

  /** A `ResponseStatusException` raised by the controller, an exception from a call below it with
      its message, or the database refusing a delete because a row of another table still refers to
      the deleted row (a `DataIntegrityViolationException` raised when the delete is flushed; its
      message is the database's). */
  datatype Thrown = ResponseStatus(code: int, reason: string) | Propagated(message: string) | ForeignKeyViolation

  /** A response the handler returns normally: its status code and body (none for 204). */
  datatype Response = Response(status: int, body: Option<TaskEntity>)

  /** The derived repository query that `list` runs. */
  datatype TaskQuery =
    | ByProjectAndStatus(projectId: int, status: Status, pageable: PageableUtils.PageRequest)
    | ByProject(projectId: int, pageable: PageableUtils.PageRequest)

  /** Whether a query's result contains a task with this project id and status
      (`findByProjectIdAndStatus` / `findByProjectId`, before paging). */
  predicate Selects(q: TaskQuery, projectId: int, status: Option<Status>)
  {
    match q
    case ByProjectAndStatus(p, s, _) => projectId == p && status == Some(s)
    case ByProject(p, _) => projectId == p
  }

  /** `list`: with a status, the tasks of the project in that status; without one, all tasks of
      the project; paged as `PageableUtils.of` says. */
  function List(projectId: int, page: PageableUtils.Int32, size: PageableUtils.Int32, status: Option<Status>,
                sortBy: Option<string>, dir: Option<string>): (q: TaskQuery)
    ensures q.projectId == projectId && q.pageable == PageableUtils.Of(page, size, sortBy, dir)
    ensures status.Some? <==> q.ByProjectAndStatus?
    ensures status.Some? ==> q.status == status.value
  {
    var pageable := PageableUtils.Of(page, size, sortBy, dir);
    if status.Some? then ByProjectAndStatus(projectId, status.value, pageable)
    else ByProject(projectId, pageable)
  }

  /** What `list` returns, stated as membership: a task of another project is never listed; with a
      status, exactly the project's tasks in that status; without one, every task of the project. */
  lemma ListSelects(projectId: int, page: PageableUtils.Int32, size: PageableUtils.Int32, status: Option<Status>,
                    sortBy: Option<string>, dir: Option<string>, taskProject: int, taskStatus: Option<Status>)
    ensures var q := List(projectId, page, size, status, sortBy, dir);
            && (status.None? ==> (Selects(q, taskProject, taskStatus) <==> taskProject == projectId))
            && (status.Some? ==> (Selects(q, taskProject, taskStatus) <==> taskProject == projectId && taskStatus == status))
  {
  }

  /** Filtering by a status lists a subset of the unfiltered list. */
  lemma StatusNarrowsList(projectId: int, page: PageableUtils.Int32, size: PageableUtils.Int32, s: Status,
                          sortBy: Option<string>, dir: Option<string>, taskProject: int, taskStatus: Option<Status>)
    requires Selects(List(projectId, page, size, Some(s), sortBy, dir), taskProject, taskStatus)
    ensures Selects(List(projectId, page, size, None, sortBy, dir), taskProject, taskStatus)
  {
  }

  /** The body of a create request. */
  datatype TaskReq = TaskReq(title: Option<string>, details: Option<string>, status: Option<Status>,
                             dueAt: Option<Instant>, assigneeUsername: Option<string>)

  /** The status `create` passes on: the requested one, or TODO when none is given. */
  function DefaultStatus(requested: Option<Status>): (s: Status)
    ensures requested.Some? ==> s == requested.value
    ensures requested.None? ==> s == Todo
  {
    if requested.Some? then requested.value else Todo
  }

  /** `create`: responds 201 with the task `TaskService.create` stores, in the requested status or
      TODO; the request's `dueAt` is not passed on, so the task has none. A missing project
      propagates the service's exception and stores nothing. */
  method Create(tasks: TaskRepository, projects: set<int>, users: UserRepository, projectId: int, req: TaskReq, now: Instant)
    returns (r: Result<Response, Thrown>)
    requires tasks.Valid() && users.Valid()
    modifies tasks
    ensures tasks.Valid()
    ensures projectId !in projects <==> r.Err?
    ensures r.Err? ==> r.error == Propagated("No value present") && tasks.rows == old(tasks.rows)
    ensures r.Ok? ==> && r.value.status == Created201 && r.value.body.Some?
                      && var t := r.value.body.value;
                         && fresh(t)
                         && tasks.rows == old(tasks.rows)[old(tasks.nextId) := t]
                         && t.id == Some(old(tasks.nextId))
                         && t.projectId == projectId && t.title == req.title && t.details == req.details
                         && t.status == Some(DefaultStatus(req.status))
                         && t.dueAt.None?
                         && (t.assignee != null <==> req.assigneeUsername.Some? && req.assigneeUsername.value in users.byUsername)
  {
    var status := DefaultStatus(req.status);
    var created := Tasks.Create(tasks, projects, users, projectId, req.title, req.details, Some(status), req.assigneeUsername, now);
    if created.Err? {
      return Err(Propagated(created.error));
    }
    r := Ok(Response(Created201, Some(created.value)));
  }

  /** The body of a PATCH request; a null field means "leave as is". */
  datatype TaskUpdateReq = TaskUpdateReq(title: Option<string>, details: Option<string>, status: Option<Status>,
                                         dueAt: Option<Instant>)

  /** The four fields a PATCH may change. */
  datatype Editable = Editable(title: Option<string>, details: Option<string>, status: Option<Status>, dueAt: Option<Instant>)

  function EditableOf(t: TaskEntity): (e: Editable)
    reads t
  {
    Editable(t.title, t.details, t.status, t.dueAt)
  }

  /** A request field, when sent, wins over the current value. */
  function Pick<T>(sent: Option<T>, current: Option<T>): (v: Option<T>)
    ensures sent.Some? ==> v == sent
    ensures sent.None? ==> v == current
  {
    if sent.Some? then sent else current
  }

  /** The editable fields after a PATCH: each field sent overwrites, each field left null is kept. */
  function Merge(e: Editable, req: TaskUpdateReq): (m: Editable)
    ensures req.title.None? ==> m.title == e.title
    ensures req.details.None? ==> m.details == e.details
    ensures req.status.None? ==> m.status == e.status
    ensures req.dueAt.None? ==> m.dueAt == e.dueAt
  {
    Editable(Pick(req.title, e.title), Pick(req.details, e.details), Pick(req.status, e.status), Pick(req.dueAt, e.dueAt))
  }

  /** Repeating a PATCH changes nothing more. */
  lemma MergeIdempotent(e: Editable, req: TaskUpdateReq)
    ensures Merge(Merge(e, req), req) == Merge(e, req)
  {
  }

  /** A PATCH with every field null is a no-op. */
  lemma EmptyPatchKeeps(e: Editable)
    ensures Merge(e, TaskUpdateReq(None, None, None, None)) == e
  {
  }

  /** Two PATCHes in a row equal one whose fields are those of the second, falling back to the first. */
  lemma MergeComposes(e: Editable, a: TaskUpdateReq, b: TaskUpdateReq)
    ensures Merge(Merge(e, a), b)
            == Merge(e, TaskUpdateReq(Pick(b.title, a.title), Pick(b.details, a.details),
                                      Pick(b.status, a.status), Pick(b.dueAt, a.dueAt)))
  {
  }

  /** `update`: an unknown task id fails with 404 "Task not found"; a task of another project fails
      with 400 "Task does not belong to this project"; both change nothing. Otherwise the fields sent
      are written into the stored task, which is returned with 200; its id, project, assignee and
      creation time are never changed, and no row is added or removed. */
  method Update(repo: TaskRepository, projectId: int, taskId: int, req: TaskUpdateReq)
    returns (r: Result<Response, Thrown>)
    requires repo.Valid()
    modifies if taskId in repo.rows then {repo.rows[taskId]} else {}
    ensures repo.Valid()
    ensures taskId !in repo.rows <==> r == Err(ResponseStatus(NotFound404, "Task not found"))
    ensures (taskId in repo.rows && repo.rows[taskId].projectId != projectId)
            <==> r == Err(ResponseStatus(BadRequest400, "Task does not belong to this project"))
    ensures r.Ok? <==> taskId in repo.rows && repo.rows[taskId].projectId == projectId
    ensures r.Err? ==> forall k :: k in repo.rows ==> unchanged(repo.rows[k])
    ensures r.Ok? ==> && taskId in repo.rows
                      && var t := repo.rows[taskId];
                         && r.value == Response(Ok200, Some(t))
                         && t.projectId == projectId
                         && EditableOf(t) == Merge(old(EditableOf(t)), req)
                         && t.id == old(t.id) && t.projectId == old(t.projectId)
                         && t.assignee == old(t.assignee) && t.createdAt == old(t.createdAt)
  {
    if taskId !in repo.rows {
      return Err(ResponseStatus(NotFound404, "Task not found"));
    }
    var task := repo.rows[taskId];
    if task.projectId != projectId {
      return Err(ResponseStatus(BadRequest400, "Task does not belong to this project"));
    }
    if req.title.Some? {
      task.title := req.title;
    }
    if req.details.Some? {
      task.details := req.details;
    }
    if req.status.Some? {
      task.status := req.status;
    }
    if req.dueAt.Some? {
      task.dueAt := req.dueAt;
    }
    r := Ok(Response(Ok200, Some(task)));
  }

  /** `delete`: removes the task with that id whatever project the path names (an unknown id is
      ignored) and responds 204 with no body. `commented` is the set of task ids that stored comments
      refer to through their non-optional `task_id` join column; nothing cascades from a task to its
      comments, so deleting a stored task in that set violates the foreign key when the delete is
      flushed, the transaction rolls back and the task stays. */
  method Delete(repo: TaskRepository, commented: set<int>, taskId: int) returns (r: Result<Response, Thrown>)
    requires repo.Valid()
    modifies repo
    ensures repo.Valid()
    ensures r.Err? <==> taskId in old(repo.rows) && taskId in commented
    ensures r.Err? ==> r.error == ForeignKeyViolation && repo.rows == old(repo.rows)
    ensures r.Ok? ==> r.value == Response(NoContent204, None) && taskId !in repo.rows
    ensures r.Ok? ==> repo.rows == old(repo.rows) - {taskId}
    ensures repo.nextId == old(repo.nextId)
  {
    if taskId in repo.rows && taskId in commented {
      return Err(ForeignKeyViolation);
    }
    repo.DeleteById(taskId);
    r := Ok(Response(NoContent204, None));
  }
}
