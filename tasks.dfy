/** `TaskEntity` with its `prePersist` defaults, the task table it is stored in, and
    `TaskService.create`. */
module Tasks {
  import opened Basics
  import opened Users

  datatype Status = Todo | InProgress | Done

  /** A row of the `tasks` table. The owning project is held by its id (the `project_id` join
      column); the assignee is a reference to a stored user, or null. */
  class TaskEntity {
    var id: Option<int>
    var title: Option<string>
    var details: Option<string>
    var status: Option<Status>
    var dueAt: Option<Instant>
    var projectId: int
    var assignee: UserEntity?
    var createdAt: Option<Instant>

    /** The entity the builder makes: no id, no due date and no creation time yet. */
    constructor (projectId: int, title: Option<string>, details: Option<string>, status: Option<Status>, assignee: UserEntity?)
      ensures this.projectId == projectId && this.title == title && this.details == details
      ensures this.status == status && this.assignee == assignee
      ensures id.None? && dueAt.None? && createdAt.None?
    {
      this.id := None;
      this.title := title;
      this.details := details;
      this.status := status;
      this.dueAt := None;
      this.projectId := projectId;
      this.assignee := assignee;
      this.createdAt := None;
    }

    /** The JPA `@PrePersist` hook: a missing creation time becomes `now`, a missing status becomes
        TODO; values already present are kept, so a second call changes nothing. */
    method PrePersist(now: Instant)
      modifies this`createdAt, this`status
      ensures createdAt.Some? && status.Some?
      ensures old(createdAt).Some? ==> createdAt == old(createdAt)
      ensures old(createdAt).None? ==> createdAt == Some(now)
      ensures old(status).Some? ==> status == old(status)
      ensures old(status).None? ==> status == Some(Todo)
    {
      if createdAt.None? {
        createdAt := Some(now);
      }
      if status.None? {
        status := Some(Todo);
      }
    }
  }

  /** The `tasks` table keyed by id; `nextId` is the identity sequence. */
  class TaskRepository {
    var rows: map<int, TaskEntity>
    var nextId: int

    /** Every stored task sits under its own id, issued by the sequence, and has been through
        `@PrePersist`. */
    ghost predicate Valid()
      reads this, rows.Values
    {
      && nextId > 0
      && forall k :: k in rows ==>
           && rows[k].id == Some(k)
           && 0 < k < nextId
           && rows[k].createdAt.Some?
           && rows[k].status.Some?
    }

    constructor ()
      ensures Valid() && rows == map[]
    {
      rows := map[];
      nextId := 1;
    }

    /** `save` of a new entity: the identity column assigns the next id, `@PrePersist` runs, and the
        task is stored under that id. */
    method SaveNew(t: TaskEntity, now: Instant)
      requires Valid() && t.id.None?
      modifies this, t
      ensures Valid()
      ensures rows == old(rows)[old(nextId) := t] && old(nextId) !in old(rows)
      ensures nextId == old(nextId) + 1
      ensures t.id == Some(old(nextId))
      ensures t.title == old(t.title) && t.details == old(t.details) && t.dueAt == old(t.dueAt)
      ensures t.projectId == old(t.projectId) && t.assignee == old(t.assignee)
      ensures old(t.createdAt).Some? ==> t.createdAt == old(t.createdAt)
      ensures old(t.createdAt).None? ==> t.createdAt == Some(now)
      ensures old(t.status).Some? ==> t.status == old(t.status)
      ensures old(t.status).None? ==> t.status == Some(Todo)
    {
      assert forall k :: k in rows ==> rows[k] != t;
      t.id := Some(nextId);
      t.PrePersist(now);
      rows := rows[nextId := t];
      nextId := nextId + 1;
    }

    /** `deleteById`: removes the row with that id; an id that is not stored is ignored. */
    method DeleteById(id: int)
      requires Valid()
      modifies this
      ensures Valid()
      ensures rows == old(rows) - {id} && nextId == old(nextId)
    {
      rows := rows - {id};
    }
  }

  /** `TaskService.create`. A project id that is not in `projects` fails with the message of
      `Optional.orElseThrow` and stores nothing. Otherwise a new task of that project with exactly
      the given title, details and status (TODO when none is given, by `@PrePersist`) is stored and
      returned; its assignee is the stored user whose username field is the given one when there is
      one (`findByUsername`; the user table is keyed by that unique column), and null when no username
      is given or none matches. */
  method Create(
    tasks: TaskRepository, projects: set<int>, users: UserRepository,
    projectId: int, title: Option<string>, details: Option<string>, status: Option<Status>,
    assigneeUsername: Option<string>, now: Instant)
    returns (r: Result<TaskEntity, string>)
    requires tasks.Valid() && users.Valid()
    modifies tasks
    ensures tasks.Valid()
    ensures projectId !in projects <==> r.Err?
    ensures r.Err? ==> r.error == "No value present" && tasks.rows == old(tasks.rows) && tasks.nextId == old(tasks.nextId)
    ensures r.Ok? ==> && fresh(r.value)
                      && tasks.rows == old(tasks.rows)[old(tasks.nextId) := r.value]
                      && r.value.id == Some(old(tasks.nextId))
                      && r.value.projectId == projectId
                      && r.value.title == title && r.value.details == details
                      && r.value.status == Some(if status.Some? then status.value else Todo)
                      && r.value.createdAt == Some(now) && r.value.dueAt.None?
    ensures r.Ok? ==> (r.value.assignee != null <==> assigneeUsername.Some? && assigneeUsername.value in users.byUsername)
    ensures r.Ok? && r.value.assignee != null ==> r.value.assignee == users.byUsername[assigneeUsername.value]
    ensures r.Ok? && r.value.assignee != null ==> r.value.assignee.username == assigneeUsername.value
  {
    if projectId !in projects {
      return Err("No value present");
    }
    var assignee: UserEntity? := null;
    if assigneeUsername.Some? && assigneeUsername.value in users.byUsername {
      assignee := users.byUsername[assigneeUsername.value];
    }
    var task := new TaskEntity(projectId, title, details, status, assignee);
    tasks.SaveNew(task, now);
    r := Ok(task);
  }
}
