/** What each store operation does to the database, as a function of the database
    it runs against. Every operation either applies in full or leaves the
    database as it was. */
module Operations {
  import opened Ranking
  import opened Schema

  datatype StoreError = UsernameTaken | NotFound | OrderIndexTaken | InvalidReference | Failed

  datatype Result<+T> = Ok(value: T) | Err(error: StoreError)

  datatype Reply<+T> = Reply(db: Db, result: Result<T>)

  // ---------------------------------------------------------------------------
  // Users

  predicate NameTaken(db: Db, username: string) {
    exists u :: u in db.users && db.users[u].username == username
  }

  function InsertUser(db: Db, user: User): Db {
    db.(users := db.users[UserId(db.userSeq + 1) := user], userSeq := db.userSeq + 1)
  }

  function CreateUser(db: Db, username: string, hash: string, now: int): Reply<UserId> {
    if NameTaken(db, username) then Reply(db, Err(UsernameTaken))
    else Reply(InsertUser(db, User(username, hash, ROLE_PLAYER, now)), Ok(UserId(db.userSeq + 1)))
  }

  function Admins(db: Db): set<UserId> {
    set u | u in db.users && db.users[u].role == ROLE_ADMIN
  }

  /** Ok(true) when an account was created, Ok(false) when an admin exists already. */
  function EnsureAdmin(db: Db, username: string, hash: string, now: int): Reply<bool> {
    if |Admins(db)| > 0 then Reply(db, Ok(false))
    else if NameTaken(db, username) then Reply(db, Err(Failed))
    else Reply(InsertUser(db, User(username, hash, ROLE_ADMIN, now)), Ok(true))
  }

  function SetUserRole(db: Db, id: UserId, role: string): Reply<()> {
    if id !in db.users then Reply(db, Err(NotFound))
    else Reply(db.(users := db.users[id := db.users[id].(role := role)]), Ok(()))
  }

  function UpdatePasswordHash(db: Db, id: UserId, hash: string): Reply<()> {
    if id !in db.users then Reply(db, Err(NotFound))
    else Reply(db.(users := db.users[id := db.users[id].(passwordHash := hash)]), Ok(()))
  }

  /** Sessions and progress go with the account. */
  function DeleteUser(db: Db, id: UserId): Reply<()> {
    if id !in db.users then Reply(db, Err(NotFound))
    else
      Reply(db.(users := map u | u in db.users && u != id :: db.users[u],
                sessions := map t | t in db.sessions && db.sessions[t].user != id :: db.sessions[t],
                progress := map p | p in db.progress && db.progress[p].user != id :: db.progress[p]),
            Ok(()))
  }

  // ---------------------------------------------------------------------------
  // Progress

  predicate HasSolved(db: Db, u: UserId, l: LevelId) {
    exists p :: p in db.progress && db.progress[p] == Progress(u, l)
  }

  function InsertProgress(db: Db, row: Progress): Db {
    db.(progress := db.progress[ProgressId(db.progressSeq + 1) := row],
        progressSeq := db.progressSeq + 1)
  }

  /** INSERT OR IGNORE: a repeated pair is skipped, a dangling reference is an error. */
  function RecordSolved(db: Db, u: UserId, l: LevelId): Reply<()> {
    if HasSolved(db, u, l) then Reply(db, Ok(()))
    else if u !in db.users || l !in db.levels then Reply(db, Err(Failed))
    else Reply(InsertProgress(db, Progress(u, l)), Ok(()))
  }

  function ClearProgress(db: Db, u: UserId): Db {
    db.(progress := map p | p in db.progress && db.progress[p].user != u :: db.progress[p])
  }

  /** INSERT ... SELECT: one row per listed level, in order. */
  function MarkSolved(db: Db, u: UserId, ids: seq<LevelId>): Db {
    if ids == [] then db
    else InsertProgress(MarkSolved(db, u, ids[..|ids| - 1]), Progress(u, ids[|ids| - 1]))
  }

  /** The first n levels of the catalogue (none when n is 0 or less), in order. */
  ghost function Leading(levels: map<LevelId, Level>, n: int): seq<LevelId>
    requires UniqueOrder(levels)
  {
    CatalogueInjective(levels);
    Sequence(OrderOf(levels))[..Limit(OrderOf(levels), n)]
  }

  ghost function SetUserProgressToLevel(db: Db, u: UserId, level: int): Reply<()>
    requires Valid(db)
  {
    if u !in db.users then Reply(db, Err(NotFound))
    else Reply(MarkSolved(ClearProgress(db, u), u, Leading(db.levels, level - 1)), Ok(()))
  }

  // ---------------------------------------------------------------------------
  // Levels

  predicate OrderTaken(db: Db, orderIndex: int, except: Option<LevelId>) {
    exists l :: l in db.levels && Some(l) != except && db.levels[l].orderIndex == orderIndex
  }

  function CreateLevel(db: Db, input: Level): Reply<LevelId> {
    if OrderTaken(db, input.orderIndex, None) then Reply(db, Err(OrderIndexTaken))
    else
      var id := LevelId(db.levelSeq + 1);
      Reply(db.(levels := db.levels[id := input], levelSeq := db.levelSeq + 1), Ok(id))
  }

  function UpdateLevel(db: Db, id: LevelId, input: Level): Reply<()> {
    if id !in db.levels then Reply(db, Err(NotFound))
    else if OrderTaken(db, input.orderIndex, Some(id)) then Reply(db, Err(OrderIndexTaken))
    else Reply(db.(levels := db.levels[id := input]), Ok(()))
  }

  function Unassign(tool: Tool, id: LevelId): Tool {
    if tool.unlocksAt == Some(id) then tool.(unlocksAt := None) else tool
  }

  /** Hints and progress go with the level; its tools stay, tied to no level. */
  function DeleteLevel(db: Db, id: LevelId): Reply<()> {
    if id !in db.levels then Reply(db, Err(NotFound))
    else
      Reply(db.(levels := map l | l in db.levels && l != id :: db.levels[l],
                hints := map h | h in db.hints && db.hints[h].level != id :: db.hints[h],
                progress := map p | p in db.progress && db.progress[p].level != id :: db.progress[p],
                tools := map t | t in db.tools :: Unassign(db.tools[t], id)),
            Ok(()))
  }

  // ---------------------------------------------------------------------------
  // Tools

  predicate LevelExists(db: Db, l: Option<LevelId>) {
    l.Some? ==> l.value in db.levels
  }

  function InsertTool(db: Db, tool: Tool): Db {
    db.(tools := db.tools[ToolId(db.toolSeq + 1) := tool], toolSeq := db.toolSeq + 1)
  }

  function CreateTool(db: Db, input: Tool): Reply<ToolId> {
    if !LevelExists(db, input.unlocksAt) then Reply(db, Err(InvalidReference))
    else Reply(InsertTool(db, input), Ok(ToolId(db.toolSeq + 1)))
  }

  function UpdateTool(db: Db, id: ToolId, input: Tool): Reply<()> {
    if id !in db.tools then Reply(db, Err(NotFound))
    else if !LevelExists(db, input.unlocksAt) then Reply(db, Err(InvalidReference))
    else Reply(db.(tools := db.tools[id := input]), Ok(()))
  }

  function DeleteTool(db: Db, id: ToolId): Reply<()> {
    if id !in db.tools then Reply(db, Err(NotFound))
    else Reply(db.(tools := map t | t in db.tools && t != id :: db.tools[t]), Ok(()))
  }

  // ---------------------------------------------------------------------------
  // Hints

  function InsertHint(db: Db, hint: Hint): Db {
    db.(hints := db.hints[HintId(db.hintSeq + 1) := hint], hintSeq := db.hintSeq + 1)
  }

  function ClearHints(db: Db, id: LevelId): Db {
    db.(hints := map h | h in db.hints && db.hints[h].level != id :: db.hints[h])
  }

  /** The texts become hints numbered 1, 2, 3, ... */
  function AddHints(db: Db, id: LevelId, texts: seq<string>): Db {
    if texts == [] then db
    else InsertHint(AddHints(db, id, texts[..|texts| - 1]), Hint(id, |texts|, texts[|texts| - 1]))
  }

  function ReplaceHints(db: Db, id: LevelId, texts: seq<string>): Reply<()> {
    if id !in db.levels then Reply(db, Err(NotFound))
    else Reply(AddHints(ClearHints(db, id), id, texts), Ok(()))
  }

  // ---------------------------------------------------------------------------
  // Sessions

  function InsertSession(db: Db, token: string, session: Session): Reply<()> {
    if token in db.sessions || session.user !in db.users then Reply(db, Err(Failed))
    else Reply(db.(sessions := db.sessions[token := session]), Ok(()))
  }

  function DeleteSession(db: Db, token: string): Db {
    db.(sessions := map t | t in db.sessions && t != token :: db.sessions[t])
  }

  function DeleteUserSessions(db: Db, id: UserId): Db {
    db.(sessions := map t | t in db.sessions && db.sessions[t].user != id :: db.sessions[t])
  }

  /** An UPDATE: a token that is gone stays gone. */
  function SetExpiry(db: Db, token: string, expiresAt: int): Db {
    if token !in db.sessions then db
    else db.(sessions := db.sessions[token := db.sessions[token].(expiresAt := expiresAt)])
  }
}
