/** `UserEntity` with its `prePersist` defaults, the user table it is stored in, and
    `UserService.register`. */
module Users {
  import opened Basics

  datatype Role = User | Admin

  /** A row of the `users` table; a null Java reference is `None`. */
  class UserEntity {
    var id: Option<int>
    var username: string
    var passwordHash: string
    var role: Option<Role>
    var createdAt: Option<Instant>

    /** The entity the builder makes: no id and no creation time yet. */
    constructor (username: string, passwordHash: string, role: Option<Role>)
      ensures this.username == username && this.passwordHash == passwordHash && this.role == role
      ensures id.None? && createdAt.None?
    {
      this.id := None;
      this.username := username;
      this.passwordHash := passwordHash;
      this.role := role;
      this.createdAt := None;
    }

    /** The JPA `@PrePersist` hook: a missing creation time becomes `now`, a missing role becomes USER;
        values already present are kept, so a second call changes nothing. */
    method PrePersist(now: Instant)
      modifies this`createdAt, this`role
      ensures createdAt.Some? && role.Some?
      ensures old(createdAt).Some? ==> createdAt == old(createdAt)
      ensures old(createdAt).None? ==> createdAt == Some(now)
      ensures old(role).Some? ==> role == old(role)
      ensures old(role).None? ==> role == Some(User)
    {
      if createdAt.None? {
        createdAt := Some(now);
      }
      if role.None? {
        role := Some(User);
      }
    }
  }

  /** The `users` table, keyed by the unique `username` column; `nextId` is the identity sequence. */
  class UserRepository {
    var byUsername: map<string, UserEntity>
    var nextId: int

    /** Every stored user sits under its own username and has an id the sequence already issued. */
    ghost predicate Valid()
      reads this, byUsername.Values
    {
      && nextId > 0
      && forall name :: name in byUsername ==>
           && byUsername[name].username == name
           && byUsername[name].id.Some?
           && 0 < byUsername[name].id.value < nextId
           && byUsername[name].createdAt.Some?
           && byUsername[name].role.Some?
    }

    constructor ()
      ensures Valid() && byUsername == map[]
    {
      byUsername := map[];
      nextId := 1;
    }

    /** `existsByUsername`: whether some stored user has this username. Because the table is keyed by
        the unique username column, that is a single key lookup. */
    function ExistsByUsername(username: string): (b: bool)
      requires Valid()
      reads this, byUsername.Values
      ensures b <==> exists u :: u in byUsername.Values && u.username == username
    {
      assert username in byUsername ==> byUsername[username] in byUsername.Values;
      username in byUsername
    }

    /** `save` of a new entity: the identity column assigns the next id, `@PrePersist` runs, and the
        user is stored under its username. */
    method SaveNew(u: UserEntity, now: Instant)
      requires Valid() && u.username !in byUsername
      modifies this, u
      ensures Valid()
      ensures byUsername == old(byUsername)[u.username := u]
      ensures nextId == old(nextId) + 1
      ensures u.id == Some(old(nextId)) && u.username == old(u.username) && u.passwordHash == old(u.passwordHash)
      ensures old(u.createdAt).Some? ==> u.createdAt == old(u.createdAt)
      ensures old(u.createdAt).None? ==> u.createdAt == Some(now)
      ensures old(u.role).Some? ==> u.role == old(u.role)
      ensures old(u.role).None? ==> u.role == Some(User)
    {
      assert u !in byUsername.Values;
      u.id := Some(nextId);
      u.PrePersist(now);
      byUsername := byUsername[u.username := u];
      nextId := nextId + 1;
    }
  }

  /** `UserService.register`: a taken username fails with "Username taken" and stores nothing;
      otherwise a new USER whose password hash is the encoder's output for the raw password is stored
      under that username and returned. */
  method Register(repo: UserRepository, encode: string -> string, username: string, rawPassword: string, now: Instant)
    returns (r: Result<UserEntity, string>)
    requires repo.Valid()
    modifies repo
    ensures repo.Valid()
    ensures username in old(repo.byUsername) <==> r.Err?
    ensures r.Err? ==> r.error == "Username taken" && repo.byUsername == old(repo.byUsername) && repo.nextId == old(repo.nextId)
    ensures r.Ok? ==> && fresh(r.value)
                      && repo.byUsername == old(repo.byUsername)[username := r.value]
                      && r.value.username == username
                      && r.value.passwordHash == encode(rawPassword)
                      && r.value.role == Some(User)
                      && r.value.createdAt == Some(now)
                      && r.value.id == Some(old(repo.nextId))
  {
    if repo.ExistsByUsername(username) {
      return Err("Username taken");
    }
    var user := new UserEntity(username, encode(rawPassword), Some(User));
    repo.SaveNew(user, now);
    r := Ok(user);
  }
}
