# Task manager: verified model of the project view's data sync and the task/user backend

This project models two parts of a small project/task manager (a React single-page client and a
Spring Boot REST backend) in Dafny and proves what they promise.

**Client (`ProjectView` component).** The project view holds three dependent collections: the
projects, the tasks of the selected project and the comments of the selected task. It also holds two
selection cursors, a status filter for the task list, three loading flags and one error slot shared by
all levels. Three load effects keep the collections in step with the server. Seven write handlers
reconcile the lists after the server confirms a write.

`ProjectView.Controller` is a class with those fields, plus one run record per level (`projectsRun`,
`tasksRun`, `commentsRun`) that stands for the effect's pending fetch. Each effect is split into two parts:
- `StartProjectsLoad`, `StartTasksLoad` and `StartCommentsLoad`, the effect bodies up to the `await`;
- `ResolveProjects`, `ResolveTasks`, `ResolveComments` and `Fail`, what happens when the fetch settles.

The per-run `cancelled` flag is replaced by a generation counter per level. A write that changes a
level's key (the project selection, the status filter or the task selection) cancels that level's run,
as React runs the effect cleanup when a dependency changes. A settling run acts only while its
generation is current. Each handler is likewise split at its `await`:
- a `Request*` method does the local checks and returns the request it sends;
- a continuation (`ProjectCreated`, `TaskDeleted`, ...) receives the server's reply.

This way any user action or load may interleave with a request in flight. The class invariant `Valid`
says that a run still waiting for its fetch asked for the current key. Every resolve therefore applies
a page to the project, filter or task it was requested for. The list transforms the handlers use are
generic functions in `IdLists`, with lemmas relating them. `Text.Trim` is JavaScript's `trim` over the
exact ECMAScript white-space set. `ProjectViewScenarios` calls the controller through races and quirks,
and the verifier proves the asserted outcomes.

**Backend.**
- `PageableUtils.Of` clamps paging parameters.
- `SecurityUtils.CurrentUsername` gives the caller's name.
- `JwtAuthFilter.DoFilterInternal` authenticates a request from a `Bearer` token.
- `Users` holds the user entity, its table and `UserService.register`.
- `Tasks` holds the task entity, its table and `TaskService.create`.
- `TaskController` holds the four task endpoints.

Entities are classes whose `PrePersist` methods change their own fields in place. Tables are classes
holding a map and an identity counter. The clock, the password encoder, JWT parsing and the user-details
lookup are parameters. `BackendScenarios` calls register, create, patch, delete and the JWT filter on
concrete values, and the verifier proves the asserted outcomes.

Behaviours of the code the model keeps:
- A successful load does not clear the shared error; the start of a load and every write request clear it.
- "The selected task is in `tasks`" is not an invariant. Creating a project selects it but keeps the
  old task selection, and the next tasks load keeps a non-null selection.
- A loading flag is lowered only by the current run. A key that moves to null while a load is in flight
  leaves the flag raised.
- The status filter is not applied to created or status-changed tasks.
- `TaskController.create` does not pass the request's `dueAt` on, so a created task has no due date.
- A PATCH can change a task's title, details, status and due date.
- Deleting a task that a comment still refers to fails: comments hold a non-optional foreign key to their task and nothing cascades.

## Model

| member | source | states |
|---|---|---|
| Basics.NonEmpty | frontend/src/components/ProjectView.tsx:172 | `s \|\| undefined`: absent exactly for the empty string, otherwise the string itself |
| Text.TrimStart | frontend/src/components/ProjectView.tsx:171 | result is a suffix of the input; everything dropped is white space; it does not start with white space |
| Text.TrimEnd | frontend/src/components/ProjectView.tsx:171 | result is a prefix of the input; everything dropped is white space; it does not end with white space |
| Text.Trim | frontend/src/components/ProjectView.tsx:171 | `trim()`: the result neither starts nor ends with ECMAScript white space |
| Text.TrimEmptyIffBlank | frontend/src/components/ProjectView.tsx:171-176 | the `!name` guard fires exactly when the input is all white space |
| Text.TrimIsSlice | frontend/src/components/ProjectView.tsx:171 | the trimmed string is a contiguous slice of the input |
| Text.TrimIdempotent | frontend/src/components/ProjectView.tsx:171 | trimming twice equals trimming once |
| IdLists.RemoveId | frontend/src/components/ProjectView.tsx:194 | `filter(x => x.id !== id)`: exactly the elements without the id survive; the length drops by the number carrying it |
| IdLists.ReplaceId | frontend/src/components/ProjectView.tsx:258 | `map(x => x.id === id ? v : x)`: same length; elements with the id become `v`; all others are unchanged in place |
| IdLists.FindId | frontend/src/components/ProjectView.tsx:54-56 | `find(...) ?? null`: absent iff no element has the id; otherwise the first element of the list with that id |
| IdLists.FindIdSkips | frontend/src/components/ProjectView.tsx:54-56 | the lookup passes over a leading element with another id, so it stops at the first match |
| IdLists.DefaultSelection | frontend/src/components/ProjectView.tsx:75 | `current ?? page[0]?.id ?? null`: keeps an existing selection; otherwise the first id, or none on an empty page |
| IdLists.RemoveIdAppend | frontend/src/components/ProjectView.tsx:194 | filtering distributes over concatenation, so the survivors keep their order |
| IdLists.RemoveIdAbsent | frontend/src/components/ProjectView.tsx:194 | deleting an id nobody carries leaves the list unchanged |
| IdLists.RemoveIdIdempotent | frontend/src/components/ProjectView.tsx:194 | deleting twice equals deleting once |
| IdLists.PrependThenRemove | frontend/src/components/ProjectView.tsx:180-194 | prepending a fresh-id element, then deleting that id, restores the list |
| IdLists.AppendThenRemove | frontend/src/components/ProjectView.tsx:277-291 | appending a fresh-id comment, then deleting that id, restores the list |
| IdLists.FindIdPrepend | frontend/src/components/ProjectView.tsx:180-183 | after a prepend, looking up the new id finds the new element |
| IdLists.ReplaceIdKeepsIds | frontend/src/components/ProjectView.tsx:258 | a replace that keeps the id leaves the id sequence unchanged |
| IdLists.ReplaceIdThenFind | frontend/src/components/ProjectView.tsx:258 | after a replace of a present id, a lookup finds the new value |
| IdLists.ReplaceThenRemove | frontend/src/components/ProjectView.tsx:242-258 | replacing and then deleting an id equals deleting it |
| IdLists.ReplaceIdAbsent | frontend/src/components/ProjectView.tsx:258 | replacing an absent id changes nothing |
| ViewTypes.StatusParam | frontend/src/components/ProjectView.tsx:113 | ALL sends no status parameter; any other filter sends its status |
| ViewTypes.CountStatus | frontend/src/components/ProjectView.tsx:60-62 | a status count never exceeds the number of tasks |
| ViewTypes.StatusCountsSum | frontend/src/components/ProjectView.tsx:59-62 | todo + in-progress + done equals the number of tasks |
| ViewTypes.CountStatusAppend | frontend/src/components/ProjectView.tsx:60-62 | counts of a concatenation are the sums of the parts' counts |
| ProjectView.Invalidated | frontend/src/components/ProjectView.tsx:132-135 | effect cleanup: a changed key cancels the run in flight; an unchanged key keeps it |
| ProjectView.Controller.constructor | frontend/src/components/ProjectView.tsx:28-52 | initial state: empty lists, no selections, filter ALL, flags down, no error |
| ProjectView.Controller.SelectProject | frontend/src/components/ProjectView.tsx:305-308 | selects the project and clears the task selection; nothing else changes |
| ProjectView.Controller.SelectTask | frontend/src/components/ProjectView.tsx:391 | selects the task; the comments run is cancelled only if the selection changed |
| ProjectView.Controller.SetStatusFilter | frontend/src/components/ProjectView.tsx:983 | sets the filter; a new filter cancels the tasks run in flight |
| ProjectView.Controller.StartProjectsLoad | frontend/src/components/ProjectView.tsx:64-71 | a new generation; flag up, error cleared, projects fetched; nothing else changes |
| ProjectView.Controller.StartTasksLoad | frontend/src/components/ProjectView.tsx:94-112 | a new generation; with no project, tasks and task selection cleared without a fetch; otherwise flag up, error cleared, fetch for the selected project and filter |
| ProjectView.Controller.StartCommentsLoad | frontend/src/components/ProjectView.tsx:139-152 | a new generation; with no task, comments cleared without a fetch; otherwise flag up, error cleared, fetch for the selected task |
| ProjectView.Controller.ResolveProjects | frontend/src/components/ProjectView.tsx:70-84 | a superseded run changes nothing; the current run replaces the list, selects the first project only when none is selected, lowers the flag |
| ProjectView.Controller.ResolveTasks | frontend/src/components/ProjectView.tsx:107-129 | only the run for the current project and filter applies; it keeps or defaults the selection, clears it on an empty page, lowers the flag |
| ProjectView.Controller.ResolveComments | frontend/src/components/ProjectView.tsx:151-158 | only the run for the selected task applies; it replaces the comments and lowers the flag |
| ProjectView.Controller.Fail | frontend/src/components/ProjectView.tsx:78-157 | a superseded failure changes nothing; a current one sets the shared error and lowers the flag, lists and selections untouched |
| ProjectView.Controller.RequestCreateProject | frontend/src/components/ProjectView.tsx:169-177 | a blank name sets "Project name is required." and sends nothing; otherwise it clears the error and sends the trimmed name and description |
| ProjectView.Controller.RequestDeleteProject | frontend/src/components/ProjectView.tsx:189-191 | nothing without confirmation; captures whether the project was selected |
| ProjectView.Controller.RequestCreateTask | frontend/src/components/ProjectView.tsx:206-221 | a no-op without a project; a blank title sets "Task title is required."; otherwise it sends the trimmed fields for the selected project |
| ProjectView.Controller.RequestDeleteTask | frontend/src/components/ProjectView.tsx:235-240 | nothing without a project or confirmation; otherwise it sends a delete for the selected project |
| ProjectView.Controller.RequestChangeStatus | frontend/src/components/ProjectView.tsx:251-256 | nothing without a project; otherwise it sends a status update for the selected project |
| ProjectView.Controller.RequestAddComment | frontend/src/components/ProjectView.tsx:267-275 | a silent no-op without a task or with a blank body; otherwise it sends the trimmed body |
| ProjectView.Controller.RequestDeleteComment | frontend/src/components/ProjectView.tsx:285-289 | nothing without a task or confirmation |
| ProjectView.Controller.ProjectCreated | frontend/src/components/ProjectView.tsx:178-186 | success prepends and selects the project (task selection kept); failure only sets the error |
| ProjectView.Controller.ProjectDeleted | frontend/src/components/ProjectView.tsx:192-202 | removes that id; if it was selected, clears the project selection, the tasks and the task selection; failure only sets the error |
| ProjectView.Controller.TaskCreated | frontend/src/components/ProjectView.tsx:223-231 | prepends and selects the task, whatever the filter; failure only sets the error |
| ProjectView.Controller.TaskDeleted | frontend/src/components/ProjectView.tsx:241-248 | removes that id and clears the selection if the task was selected |
| ProjectView.Controller.StatusChanged | frontend/src/components/ProjectView.tsx:257-264 | replaces the task by id with the server's version; the selection is unchanged when the id is kept |
| ProjectView.Controller.CommentAdded | frontend/src/components/ProjectView.tsx:276-281 | appends the comment at the end; failure only sets the error |
| ProjectView.Controller.CommentDeleted | frontend/src/components/ProjectView.tsx:290-294 | removes the comments with that id; failure only sets the error |
| ProjectView.Controller.SelectedProject | frontend/src/components/ProjectView.tsx:54-55 | absent iff no project is selected or the selected id is not in the list; otherwise the first project carrying the selected id |
| ProjectView.Controller.SelectedTask | frontend/src/components/ProjectView.tsx:56 | absent iff no task is selected or the selected id is not in the list; otherwise the first task carrying the selected id |
| ProjectView.Controller.TaskCounts | frontend/src/components/ProjectView.tsx:58-62 | the total is the number of tasks, and the three status counts add up to it |
| PageableUtils.Of | src/main/java/com/example/taskmanager/util/PageableUtils.java:8-12 | page at least 0, size in [1, 100] with in-range values passed through; unsorted iff no sortBy; descending iff dir is "desc" ignoring case |
| PageableUtils.OfIdempotent | src/main/java/com/example/taskmanager/util/PageableUtils.java:11 | clamping a clamped request changes nothing |
| PageableUtils.UnsortedIgnoresDirection | src/main/java/com/example/taskmanager/util/PageableUtils.java:9 | without sortBy, dir has no effect |
| PageableUtils.DirectionExamples | src/main/java/com/example/taskmanager/util/PageableUtils.java:9-10 | "desc", "DESC" and "Desc" sort descending; "asc", null and "" sort ascending |
| SecurityUtils.CurrentUsername | src/main/java/com/example/taskmanager/util/SecurityUtils.java:11-17 | reads the context's authentication; null without one, for a null name or for "anonymousUser"; otherwise the name unchanged |
| JwtAuthFilter.BearerToken | src/main/java/com/example/taskmanager/auth/JwtAuthFilter.java:31-33 | a token iff the header starts with "Bearer "; the header is then "Bearer " followed by the token |
| JwtAuthFilter.FilterChain.DoFilter | src/main/java/com/example/taskmanager/auth/JwtAuthFilter.java:48 | counts one invocation of the chain |
| JwtAuthFilter.DoFilterInternal | src/main/java/com/example/taskmanager/auth/JwtAuthFilter.java:25-49 | the context ends as `AuthenticationAfter` says, and the chain is invoked exactly once on every path |
| JwtAuthFilter.NeverOverwrites | src/main/java/com/example/taskmanager/auth/JwtAuthFilter.java:36-37 | an existing authentication is never replaced |
| JwtAuthFilter.NoBearerNoChange | src/main/java/com/example/taskmanager/auth/JwtAuthFilter.java:32 | a missing or non-Bearer header changes nothing |
| JwtAuthFilter.ChangesOnlyOnSuccess | src/main/java/com/example/taskmanager/auth/JwtAuthFilter.java:31-45 | the authentication changes only if none was set and the token parsed to a subject whose user loaded; it becomes that user's authentication |
| JwtAuthFilter.AuthenticatesValidToken | src/main/java/com/example/taskmanager/auth/JwtAuthFilter.java:31-41 | once the filter has run on an unauthenticated request with a valid token for a known user, the context holds that user's authentication and `currentUsername` on that context returns their name |
| JwtAuthFilter.FailureIsSwallowed | src/main/java/com/example/taskmanager/auth/JwtAuthFilter.java:34-45 | a parse or lookup failure leaves the request unauthenticated as before |
| Users.UserEntity.constructor | src/main/java/com/example/taskmanager/user/UserService.java:21-25 | the builder's entity: given username, hash and role; no id or creation time |
| Users.UserEntity.PrePersist | src/main/java/com/example/taskmanager/user/UserEntity.java:36-44 | createdAt and role are non-null afterwards; present values are kept (so a second call is a no-op); no other field changes |
| Users.UserRepository.ExistsByUsername | src/main/java/com/example/taskmanager/user/UserService.java:17 | true exactly when some stored user has that username |
| Users.UserRepository.SaveNew | src/main/java/com/example/taskmanager/user/UserService.java:27 | assigns the next id, runs PrePersist, stores the user under its username; the table stays valid |
| Users.Register | src/main/java/com/example/taskmanager/user/UserService.java:16-28 | a taken username fails with "Username taken" and stores nothing; otherwise a new USER with the encoded password is stored under that username |
| Tasks.TaskEntity.constructor | src/main/java/com/example/taskmanager/task/TaskService.java:21 | the builder's entity: given project, title, details, status and assignee; no id, due date or creation time |
| Tasks.TaskEntity.PrePersist | src/main/java/com/example/taskmanager/task/TaskEntity.java:57-65 | createdAt and status are non-null afterwards; present values are kept; a missing status becomes TODO |
| Tasks.TaskRepository.SaveNew | src/main/java/com/example/taskmanager/task/TaskService.java:25 | assigns the next id, runs PrePersist, stores the task under that id; the other fields are unchanged |
| Tasks.TaskRepository.DeleteById | src/main/java/com/example/taskmanager/task/TaskController.java:92 | removes that id; an unknown id is ignored |
| Tasks.Create | src/main/java/com/example/taskmanager/task/TaskService.java:17-26 | fails iff the project is unknown, storing nothing; otherwise stores exactly the given fields; assignee set iff a known username is given, and then the user whose username field is that name |
| TaskController.List | src/main/java/com/example/taskmanager/task/TaskController.java:25-39 | a status query iff a status is given; always for the path project; paging from `PageableUtils.of` |
| TaskController.ListSelects | src/main/java/com/example/taskmanager/task/TaskController.java:36-39 | a task is listed iff it belongs to the project and (when a status is given) has that status |
| TaskController.StatusNarrowsList | src/main/java/com/example/taskmanager/task/TaskController.java:36-39 | a status-filtered listing is contained in the unfiltered one |
| TaskController.DefaultStatus | src/main/java/com/example/taskmanager/task/TaskController.java:47 | the requested status, or TODO when none is given |
| TaskController.Create | src/main/java/com/example/taskmanager/task/TaskController.java:42-57 | 201 with the stored task in the requested status or TODO, with no due date; an unknown project propagates the service's error |
| TaskController.Pick | src/main/java/com/example/taskmanager/task/TaskController.java:73-84 | a field that is sent wins; a null field keeps the current value |
| TaskController.Merge | src/main/java/com/example/taskmanager/task/TaskController.java:73-84 | null request fields keep the old values |
| TaskController.MergeIdempotent | src/main/java/com/example/taskmanager/task/TaskController.java:73-84 | repeating a PATCH changes nothing more |
| TaskController.EmptyPatchKeeps | src/main/java/com/example/taskmanager/task/TaskController.java:73-84 | an all-null PATCH is a no-op |
| TaskController.MergeComposes | src/main/java/com/example/taskmanager/task/TaskController.java:73-84 | two PATCHes equal one whose fields take the second, falling back to the first |
| TaskController.Update | src/main/java/com/example/taskmanager/task/TaskController.java:59-88 | 404 "Task not found" / 400 "Task does not belong to this project", changing nothing; otherwise 200 with the fields merged; id, project, assignee and createdAt never change |
| TaskController.Delete | src/main/java/com/example/taskmanager/task/TaskController.java:90-94 | fails with a foreign-key violation, removing nothing, iff the task is stored and a comment refers to it; otherwise 204 with no body and the id removed whatever project the path names |

## Left out

- Rendering, layout and the form fields: clearing the inputs after a successful create is not modelled. The inputs are parameters of the `Request*` methods.
- HTTP transport, JSON and URL encoding, and the fixed page sizes of the client's API helpers: a fetch is a `Fetch` value, and its outcome is a parameter of `Resolve*`, `Fail` or a continuation.
- `window.confirm` dialogs: the user's answer is the `confirmed` parameter.
- The authentication token as a load key: a new token reloads everything, and unmounting cancels all runs. The model has one session and keeps the component mounted.
- React's render and effect timing: a run is cancelled at the state write that changes its key, rather than at the next commit. A response that settles after such a write but before React commits (the write made in an async continuation such as `ProjectCreated` or `ResolveProjects`) is applied by the component and dropped by the model. The `Start*Load` methods may be called at any point.
- Spring Data's derived queries and paging: `TaskController.List` returns the query it would run, and `Selects` states which rows it matches. Page slicing and sort order are not modelled.
- PageableUtils.Of: accepts any `sortBy`, while `Sort.by` rejects a blank property name (one without text, as `StringUtils.hasText` judges it); that check is library behaviour, not part of this class.
- JWT signature checking and claim parsing, and loading user details from the database: both are function parameters that may fail.
- The `@NotBlank` on the create request's title is not enforced: the request body is not annotated `@Valid`, so it is not modelled.
- Database column constraints (lengths, not-null) and translation of exceptions into HTTP error bodies by the global handler: controller errors are returned as `Thrown` values.
- Concurrent registrations of one username: `register` is modelled as one atomic step, and the database's unique constraint is represented by keying the table by username.
- Projects and comments on the backend: `TaskService.create` sees the project table only as the set of existing project ids, and `TaskController.Delete` sees the comment table only as the set of task ids its rows refer to. The exception message of a refused delete is the database's and is not modelled.
- `Instant.now()` and `PasswordEncoder.encode` are parameters.
