/** Client runs of the controller: interleavings a user and the network can produce, and what the
    controller's contracts alone say about them. */
module ProjectViewScenarios {
  import opened Basics
  import opened ViewTypes
  import opened ProjectView

  /** Select project A, then project B; B's tasks arrive first and A's late. Only B's are shown. */
  method ResponsesOutOfOrder(a: int, b: int, pageA: seq<Task>, pageB: seq<Task>)
    requires a != b
  {
    var v := new Controller();
    v.SelectProject(a);
    var genA, fetchA := v.StartTasksLoad();
    assert fetchA == Some(FetchTasks(a, None));
    v.SelectProject(b);
    var genB, fetchB := v.StartTasksLoad();
    var appliedB := v.ResolveTasks(genB, pageB);
    var appliedA := v.ResolveTasks(genA, pageA);
    assert appliedB && !appliedA;
    assert v.tasks == pageB && v.selectedProjectId == Some(b) && !v.loadingTasks;
  }

  /** A failure of a superseded run does not reach the shared error slot. */
  method LateFailureIgnored(a: int, b: int, pageB: seq<Task>)
    requires a != b
  {
    var v := new Controller();
    v.SelectProject(a);
    var genA, _ := v.StartTasksLoad();
    v.SelectProject(b);
    var genB, _ := v.StartTasksLoad();
    var appliedB := v.ResolveTasks(genB, pageB);
    var failedA := v.Fail(TasksLevel, genA, "HTTP 500");
    assert !failedA && v.error.None? && v.tasks == pageB;
  }

  /** One project "Alpha" with id 1 and nothing selected: the load selects it and the tasks load then
      asks for project 1 with no status parameter. */
  method FirstProjectSelected()
  {
    var v := new Controller();
    var gen, _ := v.StartProjectsLoad();
    var alpha := Project(1, "Alpha", None);
    var applied := v.ResolveProjects(gen, [alpha]);
    assert applied && v.selectedProjectId == Some(1) && v.SelectedProject() == Some(alpha);
    var _, fetch := v.StartTasksLoad();
    assert fetch == Some(FetchTasks(1, None));
  }

  /** Deleting the selected project empties everything below it; the comments level then clears itself
      without a fetch. */
  method DeleteSelectedProject(t: Task)
  {
    var v := new Controller();
    var gen, _ := v.StartProjectsLoad();
    var applied := v.ResolveProjects(gen, [Project(1, "Alpha", None)]);
    var tasksGen, _ := v.StartTasksLoad();
    applied := v.ResolveTasks(tasksGen, [t]);
    assert v.selectedTaskId == Some(t.id);
    var req, wasSelected := v.RequestDeleteProject(1, true);
    assert req == Some(DeleteProject(1)) && wasSelected;
    v.ProjectDeleted(1, wasSelected, Ok(()));
    assert v.projects == [] && v.selectedProjectId.None? && v.tasks == [] && v.selectedTaskId.None?;
    var _, fetch := v.StartCommentsLoad();
    assert fetch.None? && v.comments == [];
  }

  /** The project selection moves to null while its tasks are loading: the tasks level is emptied but
      the superseded run never lowers the loading flag, which stays raised. */
  method LoadingFlagSticks(page: seq<Task>)
  {
    var v := new Controller();
    v.SelectProject(7);
    var gen, _ := v.StartTasksLoad();
    var req, wasSelected := v.RequestDeleteProject(7, true);
    v.ProjectDeleted(7, wasSelected, Ok(()));
    var _, fetch := v.StartTasksLoad();
    assert fetch.None?;
    var applied := v.ResolveTasks(gen, page);
    assert !applied && v.tasks == [] && v.loadingTasks;
  }

  /** Creating a project keeps the old task selection, and the next tasks load keeps it too even though
      the new project's tasks do not include it: the selection then names no task in the list. */
  method CreateProjectKeepsTaskSelection(t1: Task, t5: Task)
    requires t1.id != t5.id
  {
    var v := new Controller();
    v.SelectProject(1);
    var gen, _ := v.StartTasksLoad();
    var applied := v.ResolveTasks(gen, [t1]);
    assert v.selectedTaskId == Some(t1.id);
    v.ProjectCreated(Ok(Project(2, "Beta", None)));
    assert v.selectedProjectId == Some(2) && v.selectedTaskId == Some(t1.id);
    var gen2, _ := v.StartTasksLoad();
    applied := v.ResolveTasks(gen2, [t5]);
    assert applied && v.tasks == [t5] && v.selectedTaskId == Some(t1.id) && v.SelectedTask().None?;
  }

  /** A task created under the DONE filter is listed even though its status is TODO. */
  method FilterNotAppliedToCreatedTask(t: Task)
    requires t.status == Todo
  {
    var v := new Controller();
    v.SelectProject(1);
    v.SetStatusFilter(Only(Done));
    v.TaskCreated(Ok(t));
    assert v.tasks == [t] && v.SelectedTask() == Some(t);
    assert v.TaskCounts().todo == 1;
  }
}
