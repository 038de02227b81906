/** The whole server as a transition system: one step is one request, run from
    its first statement to its last. Reads of any kind change nothing beyond
    what session admission changes. */
module System {
  import opened Schema
  import opened Operations
  import opened OperationFacts
  import opened Hints
  import opened Sessions
  import opened Seed
  import opened Progression
  import opened Toolkit
  import Files

  /** Library functions the server calls: lower-casing, and comparing a stored
      password hash with a password. */
  datatype Oracles = Oracles(lower: string -> string, matches: (string, string) -> bool)

  /** What a GET route asks for. A file route comes with the directory it reads. */
  datatype Page =
    | Own
    | LevelPage(id: LevelId)
    | HintsPage(id: LevelId)
    | LevelFile(id: LevelId, base: Files.Base, path: string)
    | ToolFile(base: Files.Base, path: string)
    | AdminList
    | AdminHints(id: LevelId)

  datatype Action =
    | Read(page: Page)
    | SubmitFlag(level: LevelId, answer: string)
    | NewLevel(input: Level)
    | EditLevel(id: LevelId, input: Level)
    | DropLevel(id: LevelId)
    | EditHints(id: LevelId, texts: seq<string>)
    | NewTool(tool: Tool)
    | EditTool(toolId: ToolId, tool: Tool)
    | DropTool(toolId: ToolId)
    | UpdateUser(user: UserId, role: Option<string>, target: Option<int>)
    | ResetPassword(user: UserId, hash: string)
    | DropUser(user: UserId)

  datatype Request =
    | Register(username: string, hash: string, now: int)
    | Login(username: string, password: string, token: string, now: int)
    | Logout(token: string)
    | Call(token: string, clock: Clock, action: Action)
    | Bootstrap(username: string, hash: string, now: int)
    | Reseed(seed: SeedFile)

  datatype Response =
    | Ok200 | Created201 | NoContent204 | Answered(correct: bool)
    | BadRequest400 | Unauthorized401 | Expired401 | Forbidden403 | NotFound404 | Conflict409 | Internal500

  datatype Outcome = Outcome(db: Db, response: Response)

  function Written<T>(r: Reply<T>, success: Response): Outcome {
    Outcome(r.db,
            match r.result
            case Ok(_) => success
            case Err(UsernameTaken) => Conflict409
            case Err(NotFound) => NotFound404
            case Err(OrderIndexTaken) => Conflict409
            case Err(InvalidReference) => BadRequest400
            case Err(Failed) => Internal500)
  }

  // ---------------------------------------------------------------------------
  // Requests of a logged-in user

  /** Look the level up, gate, compare, record. */
  function Submit(o: Oracles, db: Db, u: UserId, id: LevelId, answer: string): Outcome {
    if id !in db.levels then Outcome(db, NotFound404)
    else if !IsLevelAccessible(db, u, db.levels[id].orderIndex) then Outcome(db, Forbidden403)
    else if o.lower(answer) != o.lower(db.levels[id].flag) then Outcome(db, Answered(false))
    else Written(RecordSolved(db, u, id), Answered(true))
  }

  /** 404 for no such level, 403 for one the counting gate refuses. */
  function Gate(db: Db, u: UserId, id: LevelId): Response {
    if id !in db.levels then NotFound404
    else if !IsLevelAccessible(db, u, db.levels[id].orderIndex) then Forbidden403
    else Ok200
  }

  function Served(opening: Files.Opening): Response {
    match opening
    case Opened(_) => Ok200
    case NotFound => NotFound404
    case Failed => Internal500
  }

  /** How a GET is answered. Own stands for the account, level list and toolkit. */
  function View(db: Db, u: UserId, role: string, page: Page): Response {
    match page
    case Own => Ok200
    case LevelPage(id) => Gate(db, u, id)
    case HintsPage(id) => Gate(db, u, id)
    case LevelFile(id, base, path) =>
      if Gate(db, u, id) != Ok200 then Gate(db, u, id) else Served(Files.Open(base, path))
    case ToolFile(base, path) =>
      if !IsToolFileUnlocked(db, u, path) then Forbidden403 else Served(Files.Open(base, path))
    case AdminList => if role != ROLE_ADMIN then Forbidden403 else Ok200
    case AdminHints(id) =>
      if role != ROLE_ADMIN then Forbidden403 else if id in db.levels then Ok200 else NotFound404
  }

  lemma GateIffListed(db: Db, u: UserId, id: LevelId)
    requires Valid(db)
    ensures Gate(db, u, id) == Ok200 <==> Listed(AccessibleList(db, u), id)
  {
    hide AccessibleList;
    hide Progression.Listed;
    hide Progression.IsLevelAccessible;
    hide Valid;
    DetailIffListed(db, u, id);
  }

  /** A level's page, hints and files open for exactly the levels on the player's
      list, and every file name the page shows can then be downloaded. */
  lemma ShownFilesDownload(db: Db, u: UserId, role: string, id: LevelId, base: Files.Base, name: string)
    requires Valid(db)
    requires base.Present? ==> base.node.Dir? && Files.Tree(base.node)
    ensures View(db, u, role, LevelPage(id)) == Ok200 <==> Listed(AccessibleList(db, u), id)
    ensures View(db, u, role, HintsPage(id)) == Ok200 <==> Listed(AccessibleList(db, u), id)
    ensures View(db, u, role, LevelFile(id, base, name)) == Ok200
      <==> Listed(AccessibleList(db, u), id) && Files.Open(base, name).Opened?
    ensures Listed(AccessibleList(db, u), id) && Files.Listed(base, name)
      ==> View(db, u, role, LevelFile(id, base, name)) == Ok200
  {
    hide AccessibleList;
    hide Progression.Listed;
    hide Gate;
    hide Valid;
    hide Files.Open;
    hide Files.Listed;
    GateIffListed(db, u, id);
    Files.ListedIffOpened(base, name);
  }

  predicate GoodRole(role: string) {
    role == ROLE_PLAYER || role == ROLE_ADMIN
  }

  /** Role first, then progress, then the reloaded account. */
  ghost function UpdateAccount(db: Db, actor: UserId, id: UserId, role: Option<string>, target: Option<int>): Outcome
    requires Valid(db)
  {
    if role.Some? && !GoodRole(role.value) then Outcome(db, BadRequest400)
    else if role.Some? && id == actor && role.value != ROLE_ADMIN then Outcome(db, Conflict409)
    else if target.Some? && target.value < 1 then Outcome(db, BadRequest400)
    else if id !in db.users then Outcome(db, NotFound404)
    else
      WithRoleKeepsValid(db, id, role);
      Outcome(WithProgress(WithRole(db, id, role), id, target), Ok200)
  }

  function WithRole(db: Db, id: UserId, role: Option<string>): Db {
    if role.Some? then SetUserRole(db, id, role.value).db else db
  }

  lemma WithRoleKeepsValid(db: Db, id: UserId, role: Option<string>)
    requires Valid(db)
    ensures Valid(WithRole(db, id, role))
  {
    if role.Some? {
      SetUserRoleKeepsValid(db, id, role.value);
    }
  }

  ghost function WithProgress(db: Db, id: UserId, target: Option<int>): Db
    requires Valid(db)
  {
    if target.Some? then SetUserProgressToLevel(db, id, target.value).db else db
  }

  /** A new password hash, and every session of the account gone. */
  function ResetAccount(db: Db, id: UserId, hash: string): Outcome {
    var r := UpdatePasswordHash(db, id, hash);
    if r.result.Err? then Written(r, Ok200)
    else Outcome(DeleteUserSessions(r.db, id), Ok200)
  }

  ghost function Administer(db: Db, actor: UserId, action: Action): Outcome
    requires Valid(db)
  {
    match action
    case Read(_) => Outcome(db, Ok200)
    case SubmitFlag(_, _) => Outcome(db, Ok200)
    case NewLevel(input) =>
      if input.orderIndex <= 0 then Outcome(db, BadRequest400) else Written(CreateLevel(db, input), Created201)
    case EditLevel(id, input) =>
      if input.orderIndex <= 0 then Outcome(db, BadRequest400) else Written(UpdateLevel(db, id, input), Ok200)
    case DropLevel(id) => Written(DeleteLevel(db, id), NoContent204)
    case EditHints(id, texts) => Written(ReplaceHints(db, id, texts), Ok200)
    case NewTool(tool) => Written(CreateTool(db, tool), Created201)
    case EditTool(id, tool) => Written(UpdateTool(db, id, tool), Ok200)
    case DropTool(id) => Written(DeleteTool(db, id), NoContent204)
    case UpdateUser(id, role, target) => UpdateAccount(db, actor, id, role, target)
    case ResetPassword(id, hash) => ResetAccount(db, id, hash)
    case DropUser(id) => if id == actor then Outcome(db, Conflict409) else Written(DeleteUser(db, id), NoContent204)
  }

  /** What a request does once admitted as user u with the given role. */
  ghost function Perform(o: Oracles, db: Db, u: UserId, role: string, action: Action): Outcome
    requires Valid(db)
  {
    match action
    case Read(page) => Outcome(db, View(db, u, role, page))
    case SubmitFlag(id, answer) => Submit(o, db, u, id, answer)
    case _ => if role != ROLE_ADMIN then Outcome(db, Forbidden403) else Administer(db, u, action)
  }

  // ---------------------------------------------------------------------------
  // One request

  ghost predicate Named(db: Db, username: string, u: UserId) {
    u in db.users && db.users[u].username == username
  }

  ghost function UserByUsername(db: Db, username: string): Option<UserId> {
    if exists u :: Named(db, username, u) then
      var u :| Named(db, username, u);
      Some(u)
    else None
  }

  ghost function LogIn(o: Oracles, db: Db, username: string, password: string, token: string, now: int): Outcome {
    if username == "" || password == "" then Outcome(db, BadRequest400)
    else
      match UserByUsername(db, username)
      case None => Outcome(db, Unauthorized401)
      case Some(u) =>
        if u !in db.users || !o.matches(db.users[u].passwordHash, password) then Outcome(db, Unauthorized401)
        else Written(CreateSession(db, token, u, now + SESSION_TTL), Ok200)
  }

  /** Session admission first, then the request itself. */
  ghost function Serve(o: Oracles, db: Db, token: string, clock: Clock, action: Action): Outcome
    requires Valid(db)
  {
    RequireLoginKeepsValid(db, token, clock);
    var (db', admission) := RequireLogin(db, token, clock);
    match admission
    case Unknown => Outcome(db', Unauthorized401)
    case Expired => Outcome(db', Expired401)
    case Admitted(u, role) => Perform(o, db', u, role, action)
  }

  lemma RequireLoginKeepsValid(db: Db, token: string, clock: Clock)
    requires Valid(db)
    ensures Valid(RequireLogin(db, token, clock).0)
  {
    hide Valid;
    SessionOpsKeepValid(db, token, Session(UserId(0), 0), UserId(0), Truncate(clock.renew + SESSION_TTL));
  }

  ghost function Step(o: Oracles, db: Db, r: Request): Outcome
    requires Valid(db)
  {
    match r
    case Register(username, hash, now) => Written(CreateUser(db, username, hash, now), Created201)
    case Login(username, password, token, now) => LogIn(o, db, username, password, token, now)
    case Logout(token) => Outcome(DeleteSession(db, token), NoContent204)
    case Call(token, clock, action) => Serve(o, db, token, clock, action)
    case Bootstrap(username, hash, now) => Written(EnsureAdmin(db, username, hash, now), Ok200)
    case Reseed(seed) => Written(Load(db, seed), Ok200)
  }

  // ---------------------------------------------------------------------------
  // The constraints hold along every run

  lemma AdministerKeepsValid(db: Db, actor: UserId, action: Action)
    requires Valid(db)
    ensures Valid(Administer(db, actor, action).db)
  {
    match action
    case Read(_) =>
    case SubmitFlag(_, _) =>
    case NewLevel(input) => CreateLevelKeepsValid(db, input);
    case EditLevel(id, input) => UpdateLevelKeepsValid(db, id, input);
    case DropLevel(id) => DeleteLevelKeepsValid(db, id);
    case EditHints(id, texts) => ReplaceHintsKeepsValid(db, id, texts);
    case NewTool(tool) => CreateToolKeepsValid(db, tool);
    case EditTool(id, tool) => UpdateToolKeepsValid(db, id, tool);
    case DropTool(id) => DeleteToolKeepsValid(db, id);
    case UpdateUser(id, role, target) => UpdateAccountKeepsValid(db, actor, id, role, target);
    case ResetPassword(id, hash) => ResetAccountKeepsValid(db, id, hash);
    case DropUser(id) => DeleteUserKeepsValid(db, id);
  }

  lemma UpdateAccountKeepsValid(db: Db, actor: UserId, id: UserId, role: Option<string>, target: Option<int>)
    requires Valid(db)
    ensures Valid(UpdateAccount(db, actor, id, role, target).db)
  {
    if id in db.users {
      WithRoleKeepsValid(db, id, role);
      if target.Some? {
        SetProgressEffect(WithRole(db, id, role), id, target.value);
      }
    }
  }

  lemma ResetAccountKeepsValid(db: Db, id: UserId, hash: string)
    requires Valid(db)
    ensures Valid(ResetAccount(db, id, hash).db)
  {
    UpdatePasswordHashKeepsValid(db, id, hash);
    var db1 := UpdatePasswordHash(db, id, hash).db;
    SessionOpsKeepValid(db1, "", Session(id, 0), id, 0);
  }

  lemma PerformKeepsValid(o: Oracles, db: Db, u: UserId, role: string, action: Action)
    requires Valid(db)
    ensures Valid(Perform(o, db, u, role, action).db)
  {
    match action
    case Read(_) =>
    case SubmitFlag(id, answer) => RecordSolvedKeepsValid(db, u, id);
    case _ => AdministerKeepsValid(db, u, action);
  }

  lemma LogInKeepsValid(o: Oracles, db: Db, username: string, password: string, token: string, now: int)
    requires Valid(db)
    ensures Valid(LogIn(o, db, username, password, token, now).db)
  {
    var u := UserByUsername(db, username);
    if u.Some? {
      SessionOpsKeepValid(db, token, Session(u.value, Truncate(now + SESSION_TTL)), u.value, 0);
    }
  }

  lemma ServeKeepsValid(o: Oracles, db: Db, token: string, clock: Clock, action: Action)
    requires Valid(db)
    ensures Valid(Serve(o, db, token, clock, action).db)
  {
    RequireLoginKeepsValid(db, token, clock);
    var (db', admission) := RequireLogin(db, token, clock);
    if admission.Admitted? {
      PerformKeepsValid(o, db', admission.user, admission.role, action);
    }
  }

  /** Keys, UNIQUE constraints and references survive every request. */
  lemma StepKeepsValid(o: Oracles, db: Db, r: Request)
    requires Valid(db)
    ensures Valid(Step(o, db, r).db)
  {
    match r
    case Register(username, hash, now) => CreateUserKeepsValid(db, username, hash, now);
    case Login(username, password, token, now) => LogInKeepsValid(o, db, username, password, token, now);
    case Logout(token) => SessionOpsKeepValid(db, token, Session(UserId(0), 0), UserId(0), 0);
    case Call(token, clock, action) => ServeKeepsValid(o, db, token, clock, action);
    case Bootstrap(username, hash, now) => EnsureAdminKeepsValid(db, username, hash, now);
    case Reseed(seed) => if Loadable(seed) { LoadTheorem(db, seed); }
  }

  /** The database after a run of requests. */
  ghost function Run(o: Oracles, db: Db, rs: seq<Request>): (r: Db)
    requires Valid(db)
    ensures Valid(r)
    decreases |rs|
  {
    if rs == [] then db
    else
      StepKeepsValid(o, db, rs[0]);
      Run(o, Step(o, db, rs[0]).db, rs[1..])
  }
}
