/** The records the frontend receives from the server, and the status filter of the task list. */
module ViewTypes {
  import opened Basics

  datatype TaskStatus = Todo | InProgress | Done

  /** The task-list filter: `"ALL"` or one status. */
  datatype StatusFilter = All | Only(status: TaskStatus)

  datatype Project = Project(id: int, name: string, description: Option<string>)

  datatype Assignee = Assignee(id: Option<int>, username: Option<string>)

  datatype Task = Task(
    id: int,
    title: string,
    details: Option<string>,
    status: TaskStatus,
    dueAt: Option<string>,
    createdAt: Option<string>,
    assignee: Option<Assignee>)

  datatype Comment = Comment(id: int, body: string, createdAt: Option<string>)

  function ProjectId(p: Project): (id: int) { p.id }
  function TaskId(t: Task): (id: int) { t.id }
  function CommentId(c: Comment): (id: int) { c.id }

  /** The `status` query parameter sent for a filter: `"ALL"` sends none. */
  function StatusParam(f: StatusFilter): (r: Option<TaskStatus>)
    ensures r.None? <==> f == All
    ensures f.Only? ==> r == Some(f.status)
  {
    match f
    case All => None
    case Only(s) => Some(s)
  }

  /** `tasks.filter((t) => t.status === status).length`. */
  function CountStatus(tasks: seq<Task>, status: TaskStatus): (n: nat)
    ensures n <= |tasks|
  {
    if tasks == [] then 0
    else (if tasks[0].status == status then 1 else 0) + CountStatus(tasks[1..], status)
  }

  /** The todo, in-progress and done counts always add up to the number of tasks. */
  lemma {:induction false} StatusCountsSum(tasks: seq<Task>)
    ensures CountStatus(tasks, Todo) + CountStatus(tasks, InProgress) + CountStatus(tasks, Done) == |tasks|
  {
    if tasks != [] {
      StatusCountsSum(tasks[1..]);
    }
  }

  /** The status counts of a concatenation are the sums of the parts' counts. */
  lemma {:induction false} CountStatusAppend(a: seq<Task>, b: seq<Task>, status: TaskStatus)
    ensures CountStatus(a + b, status) == CountStatus(a, status) + CountStatus(b, status)
  {
    if a == [] {
      assert a + b == b;
    } else {
      assert (a + b)[1..] == a[1..] + b;
      CountStatusAppend(a[1..], b, status);
    }
  }
}
