/** Concrete runs of the backend model, each checked end to end by the verifier. */
module BackendScenarios {
  import opened Basics
  import opened Users
  import opened Tasks
  import TaskController
  import opened Security
  import SecurityUtils
  import JwtAuthFilter

  /** Registering "alice" with an encoder that maps "pw" to "ENC" stores the hash "ENC"; a second
      registration of "alice" fails and leaves the table as it was. */
  method RegisterEncodesAndRejectsDuplicate()
  {
    var repo := new UserRepository();
    var encode := (raw: string) => if raw == "pw" then "ENC" else raw + "#";
    var r := Register(repo, encode, "alice", "pw", 10);
    assert r.Ok? && r.value.passwordHash == "ENC" && r.value.role == Some(User);
    assert repo.ExistsByUsername("alice");
    var before := repo.byUsername;
    var again := Register(repo, encode, "alice", "other", 11);
    assert again == Err("Username taken");
    assert repo.byUsername == before;
  }

  /** `@PrePersist` keeps an ADMIN role and an existing creation time, and a second call is a no-op. */
  method PrePersistKeepsValues()
  {
    var admin := new UserEntity("admin", "h", Some(Admin));
    admin.PrePersist(5);
    assert admin.role == Some(Admin) && admin.createdAt == Some(5);
    admin.PrePersist(9);
    assert admin.role == Some(Admin) && admin.createdAt == Some(5);
  }

  /** A task created without a status is TODO; a PATCH of only the status keeps the title; a PATCH
      naming another project is refused; a delete is refused while a comment refers to the task and
      otherwise removes it. */
  method TaskLifecycle()
  {
    var users := new UserRepository();
    var tasks := new TaskRepository();
    var req := TaskController.TaskReq(Some("Write docs"), None, None, Some(100), Some("nobody"));
    var created := TaskController.Create(tasks, {7}, users, 7, req, 1);
    assert created.Ok?;
    var t := created.value.body.value;
    assert t.status == Some(Todo) && t.assignee == null && t.dueAt == None;
    var id := t.id.value;
    assert id in tasks.rows && tasks.rows[id] == t;

    var patch := TaskController.TaskUpdateReq(None, None, Some(Done), None);
    var updated := TaskController.Update(tasks, 7, id, patch);
    assert updated.Ok? && t.status == Some(Done) && t.title == Some("Write docs");

    var wrong := TaskController.Update(tasks, 8, id, patch);
    assert wrong.Err? && wrong.error.code == TaskController.BadRequest400;

    var missing := TaskController.Create(tasks, {7}, users, 8, req, 2);
    assert missing.Err?;

    var refused := TaskController.Delete(tasks, {id}, id);
    assert refused == Err(TaskController.ForeignKeyViolation) && id in tasks.rows;

    var deleted := TaskController.Delete(tasks, {}, id);
    assert deleted.Ok? && id !in tasks.rows;
  }

  /** A request carrying "Bearer t1", where "t1" names "alice", authenticates alice, after which
      `currentUsername` gives "alice"; a second request with a malformed header changes nothing. */
  method BearerRequestAuthenticates()
  {
    var context := new SecurityContext(None);
    assert SecurityUtils.CurrentUsername(context) == None;
    var chain := new JwtAuthFilter.FilterChain();
    var parse := (token: string) =>
      if token == "t1" then Ok(JwtAuthFilter.Claims(Some("alice"))) else Err("bad token");
    var loadUser := (name: string) =>
      if name == "alice" then Ok(UserDetails("alice", ["ROLE_USER"])) else Err("not found");
    JwtAuthFilter.DoFilterInternal(Some("Bearer t1"), context, chain, parse, loadUser);
    JwtAuthFilter.AuthenticatesValidToken(context, "t1", "alice", UserDetails("alice", ["ROLE_USER"]), parse, loadUser);
    assert SecurityUtils.CurrentUsername(context) == Some("alice");
    assert chain.invocations == 1;

    var before := context.authentication;
    JwtAuthFilter.DoFilterInternal(Some("Basic t1"), context, chain, parse, loadUser);
    assert context.authentication == before;
    assert chain.invocations == 2;
  }
}
