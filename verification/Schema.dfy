/** The database after both migrations: six tables, their AUTOINCREMENT
    counters, and the constraints SQLite enforces on them. */
module Schema {
  import opened Ranking
  import opened Sets

  // Row ids. AUTOINCREMENT hands out 1, 2, 3, ... and never looks back.
  datatype UserId = UserId(n: int)
  datatype LevelId = LevelId(n: int)
  datatype ToolId = ToolId(n: int)
  datatype HintId = HintId(n: int)
  datatype ProgressId = ProgressId(n: int)

  datatype Option<+T> = None | Some(value: T)

  datatype User = User(username: string, passwordHash: string, role: string, createdAt: int)

  /** expiresAt is a time in nanoseconds; the stored text keeps whole seconds only. */
  datatype Session = Session(user: UserId, expiresAt: int)

  datatype Level = Level(orderIndex: int, title: string, description: string, flag: string)

  datatype Tool = Tool(kind: string, title: string, description: string, content: string,
                       unlocksAt: Option<LevelId>)

  datatype Hint = Hint(level: LevelId, orderIndex: int, text: string)

  datatype Progress = Progress(user: UserId, level: LevelId)

  datatype Db = Db(
    users: map<UserId, User>,
    sessions: map<string, Session>,
    levels: map<LevelId, Level>,
    tools: map<ToolId, Tool>,
    hints: map<HintId, Hint>,
    progress: map<ProgressId, Progress>,
    userSeq: nat,
    levelSeq: nat,
    toolSeq: nat,
    hintSeq: nat,
    progressSeq: nat)

  const ROLE_PLAYER := "player"
  const ROLE_ADMIN := "admin"

  const EMPTY_DB := Db(map[], map[], map[], map[], map[], map[], 0, 0, 0, 0, 0)

  // ---------------------------------------------------------------------------
  // Constraints

  // Ids were handed out by the table's counter.
  ghost predicate UserIds(users: map<UserId, User>, last: nat) {
    forall u :: u in users ==> 1 <= u.n <= last
  }

  ghost predicate LevelIds(levels: map<LevelId, Level>, last: nat) {
    forall l :: l in levels ==> 1 <= l.n <= last
  }

  ghost predicate ToolIds(tools: map<ToolId, Tool>, last: nat) {
    forall t :: t in tools ==> 1 <= t.n <= last
  }

  ghost predicate HintIds(hints: map<HintId, Hint>, last: nat) {
    forall h :: h in hints ==> 1 <= h.n <= last
  }

  ghost predicate ProgressIds(progress: map<ProgressId, Progress>, last: nat) {
    forall p :: p in progress ==> 1 <= p.n <= last
  }

  ghost predicate Numbered(db: Db) {
    && UserIds(db.users, db.userSeq)
    && LevelIds(db.levels, db.levelSeq)
    && ToolIds(db.tools, db.toolSeq)
    && HintIds(db.hints, db.hintSeq)
    && ProgressIds(db.progress, db.progressSeq)
  }

  ghost predicate UniqueNames(users: map<UserId, User>) {
    forall a, b :: a in users && b in users && users[a].username == users[b].username ==> a == b
  }

  ghost predicate UniqueOrder(levels: map<LevelId, Level>) {
    forall a, b :: a in levels && b in levels && levels[a].orderIndex == levels[b].orderIndex ==> a == b
  }

  /** UNIQUE(user_id, level_id) */
  ghost predicate UniqueProgress(progress: map<ProgressId, Progress>) {
    forall p, q :: p in progress && q in progress && progress[p] == progress[q] ==> p == q
  }

  /** Not a table constraint: the two writers of hints number them 1, 2, 3, ... */
  ghost predicate UniqueHintOrder(hints: map<HintId, Hint>) {
    forall a, b | a in hints && b in hints && hints[a].level == hints[b].level
      :: hints[a].orderIndex == hints[b].orderIndex ==> a == b
  }

  ghost predicate SessionRefs(sessions: map<string, Session>, users: map<UserId, User>) {
    forall t :: t in sessions ==> sessions[t].user in users
  }

  ghost predicate ToolRefs(tools: map<ToolId, Tool>, levels: map<LevelId, Level>) {
    forall t :: t in tools && tools[t].unlocksAt.Some? ==> tools[t].unlocksAt.value in levels
  }

  ghost predicate HintRefs(hints: map<HintId, Hint>, levels: map<LevelId, Level>) {
    forall h :: h in hints ==> hints[h].level in levels
  }

  ghost predicate ProgressRefs(progress: map<ProgressId, Progress>, users: map<UserId, User>,
                               levels: map<LevelId, Level>) {
    forall p :: p in progress ==> progress[p].user in users && progress[p].level in levels
  }

  ghost predicate References(db: Db) {
    && SessionRefs(db.sessions, db.users)
    && ToolRefs(db.tools, db.levels)
    && HintRefs(db.hints, db.levels)
    && ProgressRefs(db.progress, db.users, db.levels)
  }

  ghost predicate Unique(db: Db) {
    && UniqueNames(db.users)
    && UniqueOrder(db.levels)
    && UniqueProgress(db.progress)
    && UniqueHintOrder(db.hints)
  }

  ghost predicate Valid(db: Db) {
    Numbered(db) && Unique(db) && References(db)
  }

  // ---------------------------------------------------------------------------
  // What the tables say about a player

  function OrderOf(levels: map<LevelId, Level>): Order<LevelId> {
    map l | l in levels :: levels[l].orderIndex
  }

  function Catalogue(db: Db): Order<LevelId> {
    OrderOf(db.levels)
  }

  function RowsOf(progress: map<ProgressId, Progress>, u: UserId): set<ProgressId> {
    set p | p in progress && progress[p].user == u
  }

  function LevelsOf(progress: map<ProgressId, Progress>, u: UserId): set<LevelId> {
    set p | p in progress && progress[p].user == u :: progress[p].level
  }

  function Solved(db: Db, u: UserId): set<LevelId> {
    LevelsOf(db.progress, u)
  }

  /** One more than the number of progress rows of the account. */
  function CurrentLevel(db: Db, u: UserId): nat {
    |RowsOf(db.progress, u)| + 1
  }

  /** The levels whose rank is at most the player's current level. */
  function Accessible(db: Db, u: UserId): set<LevelId> {
    First(Catalogue(db), CurrentLevel(db, u))
  }

  /** The number of unsolved levels among the first |solved| of the catalogue. */
  function GapOf(db: Db, u: UserId): nat {
    Gap(Catalogue(db), Solved(db, u))
  }

  lemma CatalogueInjective(levels: map<LevelId, Level>)
    requires UniqueOrder(levels)
    ensures Injective(OrderOf(levels))
  {
  }

  lemma {:induction false} ImageSize(progress: map<ProgressId, Progress>, u: UserId, rows: set<ProgressId>)
    requires UniqueProgress(progress)
    requires rows <= RowsOf(progress, u)
    ensures |set p | p in rows :: progress[p].level| == |rows|
  {
    if rows != {} {
      var r := Pick(rows);
      var rest := rows - {r};
      ImageSize(progress, u, rest);
      var image := set p | p in rest :: progress[p].level;
      assert (set p | p in rows :: progress[p].level) == image + {progress[r].level};
      forall p | p in rest ensures progress[p].level != progress[r].level {
        assert p in RowsOf(progress, u) && r in RowsOf(progress, u);
      }
    }
  }

  /** Counting rows counts levels, because a pair is stored at most once; and every
      counted level exists, because its row would have gone with it. */
  lemma CountIsSolved(db: Db, u: UserId)
    requires Valid(db)
    ensures |RowsOf(db.progress, u)| == |Solved(db, u)|
    ensures Solved(db, u) <= db.levels.Keys
    ensures 1 <= CurrentLevel(db, u) <= |db.levels| + 1
  {
    ImageSize(db.progress, u, RowsOf(db.progress, u));
    assert Solved(db, u) == set p | p in RowsOf(db.progress, u) :: db.progress[p].level;
    SubsetSize(Solved(db, u), db.levels.Keys);
  }
}
