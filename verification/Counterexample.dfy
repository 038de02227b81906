/** A run of ordinary requests after which the accessible levels are not every
    solved level plus the next unsolved one. */
module Counterexample {
  import opened Schema
  import opened Operations
  import opened Sessions
  import opened Progression
  import opened System
  import opened Runs
  import opened Credentials
  import opened Ranking

  const ADMIN := UserId(1)
  const PLAYER := UserId(2)
  const ADMIN_HASH := "hash of the admin's password"
  const PLAYER_HASH := "hash of the player's password"
  const ADMIN_PASSWORD := "correct horse"
  const PLAYER_PASSWORD := "battery staple"
  const ADMIN_TOKEN := "a1"
  const PLAYER_TOKEN := "b2"
  const NOW := Clock(0, 0, 0)

  predicate PasswordsMatch(o: Oracles) {
    o.matches(ADMIN_HASH, ADMIN_PASSWORD) && o.matches(PLAYER_HASH, PLAYER_PASSWORD)
  }

  function At(orderIndex: int): Level {
    Level(orderIndex, "Caesar", "Shift every letter back.", "flag{rubicon}")
  }

  function Add(orderIndex: int): Request {
    Call(ADMIN_TOKEN, NOW, NewLevel(At(orderIndex)))
  }

  function Solve(l: LevelId): Request {
    Call(PLAYER_TOKEN, NOW, SubmitFlag(l, "flag{rubicon}"))
  }

  const ACCOUNTS := [Bootstrap("admin", ADMIN_HASH, 0), Register("player", PLAYER_HASH, 0)]
  const LOGINS := [Login("admin", ADMIN_PASSWORD, ADMIN_TOKEN, 0), Login("player", PLAYER_PASSWORD, PLAYER_TOKEN, 0)]
  const LEVELS := [Add(10), Add(20)]
  const SOLVES := [Solve(LevelId(1)), Solve(LevelId(2))]
  const INSERTS := [Add(1), Add(2)]

  /** The admin and the player are logged in, and these are the levels and solves. */
  ghost predicate Scene(db: Db, levels: map<LevelId, Level>, n: nat, progress: map<ProgressId, Progress>, m: nat) {
    && Valid(db)
    && ADMIN in db.users && db.users[ADMIN].role == ROLE_ADMIN && PLAYER in db.users
    && ADMIN_TOKEN in db.sessions && db.sessions[ADMIN_TOKEN] == Session(ADMIN, SESSION_TTL)
    && PLAYER_TOKEN in db.sessions && db.sessions[PLAYER_TOKEN] == Session(PLAYER, SESSION_TTL)
    && db.levels == levels && db.levelSeq == n && db.progress == progress && db.progressSeq == m
  }

  lemma RunTwo(o: Oracles, db: Db, a: Request, b: Request)
    requires Valid(db)
    ensures Valid(Step(o, db, a).db)
    ensures Run(o, db, [a, b]) == Step(o, Step(o, db, a).db, b).db
  {
    hide Step;
    hide Valid;
    StepKeepsValid(o, db, a);
    var next := Step(o, db, a).db;
    StepKeepsValid(o, next, b);
    var last := Step(o, next, b).db;
    assert [a, b][1..] == [b];
    assert Run(o, next, [b]) == Run(o, last, []) by {
      assert [b][1..] == [];
    }
  }

  // ---------- one request at a time ----------

  lemma LoginStep(o: Oracles, db: Db, u: UserId, password: string, token: string)
    requires Valid(db) && u in db.users && db.users[u].username != "" && password != ""
    requires o.matches(db.users[u].passwordHash, password) && token !in db.sessions
    ensures Step(o, db, Login(db.users[u].username, password, token, 0)).db
         == db.(sessions := db.sessions[token := Session(u, SESSION_TTL)])
  {
    NameFindsAccount(db, u);
    hide Valid;
  }

  lemma CallStep(o: Oracles, db: Db, token: string, u: UserId, action: Action)
    requires Valid(db) && token != "" && token in db.sessions && u in db.users
    requires db.sessions[token] == Session(u, SESSION_TTL)
    ensures Step(o, db, Call(token, NOW, action)) == Perform(o, db, u, db.users[u].role, action)
  {
    hide Perform;
    hide Valid;
    ServeShape(o, db, token, NOW, action);
  }

  lemma AddStep(o: Oracles, db: Db, levels: map<LevelId, Level>, n: nat,
                progress: map<ProgressId, Progress>, m: nat, orderIndex: int)
    requires Scene(db, levels, n, progress, m) && orderIndex > 0
    requires forall l | l in levels :: levels[l].orderIndex != orderIndex
    ensures Step(o, db, Add(orderIndex)).response == Created201
    ensures Scene(Step(o, db, Add(orderIndex)).db, levels[LevelId(n + 1) := At(orderIndex)], n + 1, progress, m)
  {
    hide Valid;
    CallStep(o, db, ADMIN_TOKEN, ADMIN, NewLevel(At(orderIndex)));
    StepKeepsValid(o, db, Add(orderIndex));
    hide Step;
  }

  lemma SolveStep(o: Oracles, db: Db, levels: map<LevelId, Level>, n: nat,
                  progress: map<ProgressId, Progress>, m: nat, l: LevelId)
    requires Scene(db, levels, n, progress, m) && l in levels && levels[l].flag == "flag{rubicon}"
    requires IsLevelAccessible(db, PLAYER, levels[l].orderIndex)
    requires forall p | p in progress :: progress[p] != Progress(PLAYER, l)
    ensures Step(o, db, Solve(l)).response == Answered(true)
    ensures Scene(Step(o, db, Solve(l)).db, levels, n, progress[ProgressId(m + 1) := Progress(PLAYER, l)], m + 1)
  {
    hide Valid;
    hide Progression.IsLevelAccessible;
    CallStep(o, db, PLAYER_TOKEN, PLAYER, SubmitFlag(l, "flag{rubicon}"));
    StepKeepsValid(o, db, Solve(l));
    hide Step;
  }

  // ---------- the run ----------

  lemma AccountsMade(o: Oracles)
    ensures Valid(EMPTY_DB)
    ensures var db := Run(o, EMPTY_DB, ACCOUNTS);
      && db.users == map[ADMIN := User("admin", ADMIN_HASH, ROLE_ADMIN, 0), PLAYER := User("player", PLAYER_HASH, ROLE_PLAYER, 0)]
      && db == EMPTY_DB.(users := db.users, userSeq := 2)
  {
    assert Valid(EMPTY_DB);
    hide Valid;
    RunTwo(o, EMPTY_DB, ACCOUNTS[0], ACCOUNTS[1]);
    assert Admins(EMPTY_DB) == {};
    assert Step(o, EMPTY_DB, ACCOUNTS[0]).db
        == EMPTY_DB.(users := map[ADMIN := User("admin", ADMIN_HASH, ROLE_ADMIN, 0)], userSeq := 1);
  }

  lemma BothLoggedIn(o: Oracles, db: Db)
    requires PasswordsMatch(o) && Valid(db)
    requires db.users == map[ADMIN := User("admin", ADMIN_HASH, ROLE_ADMIN, 0), PLAYER := User("player", PLAYER_HASH, ROLE_PLAYER, 0)]
    requires db == EMPTY_DB.(users := db.users, userSeq := 2)
    ensures Scene(Run(o, db, LOGINS), map[], 0, map[], 0)
  {
    hide Valid;
    RunTwo(o, db, LOGINS[0], LOGINS[1]);
    LoginStep(o, db, ADMIN, ADMIN_PASSWORD, ADMIN_TOKEN);
    var next := Step(o, db, LOGINS[0]).db;
    LoginStep(o, next, PLAYER, PLAYER_PASSWORD, PLAYER_TOKEN);
    hide Step;
  }

  lemma LevelsAdded(o: Oracles, db: Db)
    requires Scene(db, map[], 0, map[], 0)
    ensures Scene(Run(o, db, LEVELS), map[LevelId(1) := At(10), LevelId(2) := At(20)], 2, map[], 0)
  {
    hide Valid;
    hide Step;
    RunTwo(o, db, LEVELS[0], LEVELS[1]);
    AddStep(o, db, map[], 0, map[], 0, 10);
    var one: map<LevelId, Level> := map[LevelId(1) := At(10)];
    AddStep(o, Step(o, db, LEVELS[0]).db, one, 1, map[], 0, 20);
    hide Scene;
    assert one[LevelId(2) := At(20)] == map[LevelId(1) := At(10), LevelId(2) := At(20)];
  }

  lemma LevelsSolved(o: Oracles, db: Db)
    requires Scene(db, map[LevelId(1) := At(10), LevelId(2) := At(20)], 2, map[], 0)
    ensures Scene(Run(o, db, SOLVES), map[LevelId(1) := At(10), LevelId(2) := At(20)], 2,
                  map[ProgressId(1) := Progress(PLAYER, LevelId(1)), ProgressId(2) := Progress(PLAYER, LevelId(2))], 2)
  {
    hide Step;
    hide Valid;
    var levels := map[LevelId(1) := At(10), LevelId(2) := At(20)];
    RunTwo(o, db, SOLVES[0], SOLVES[1]);
    assert UpTo(Catalogue(db), 10) == {LevelId(1)};
    SolveStep(o, db, levels, 2, map[], 0, LevelId(1));
    var one: map<ProgressId, Progress> := map[ProgressId(1) := Progress(PLAYER, LevelId(1))];
    var next := Step(o, db, SOLVES[0]).db;
    assert UpTo(Catalogue(next), 20) == {LevelId(1), LevelId(2)};
    assert RowsOf(next.progress, PLAYER) == {ProgressId(1)};
    SolveStep(o, next, levels, 2, one, 1, LevelId(2));
    hide Scene;
    assert one[ProgressId(2) := Progress(PLAYER, LevelId(2))]
        == map[ProgressId(1) := Progress(PLAYER, LevelId(1)), ProgressId(2) := Progress(PLAYER, LevelId(2))];
  }

  lemma LevelsInserted(o: Oracles, db: Db, progress: map<ProgressId, Progress>)
    requires Scene(db, map[LevelId(1) := At(10), LevelId(2) := At(20)], 2, progress, 2)
    ensures Scene(Run(o, db, INSERTS),
                  map[LevelId(1) := At(10), LevelId(2) := At(20), LevelId(3) := At(1), LevelId(4) := At(2)], 4, progress, 2)
  {
    hide Valid;
    hide Step;
    RunTwo(o, db, INSERTS[0], INSERTS[1]);
    var levels := map[LevelId(1) := At(10), LevelId(2) := At(20)];
    AddStep(o, db, levels, 2, progress, 2, 1);
    AddStep(o, Step(o, db, INSERTS[0]).db, levels[LevelId(3) := At(1)], 3, progress, 2, 2);
    hide Scene;
    assert levels[LevelId(3) := At(1)][LevelId(4) := At(2)]
        == map[LevelId(1) := At(10), LevelId(2) := At(20), LevelId(3) := At(1), LevelId(4) := At(2)];
  }

  lemma SolvedTwo(db: Db)
    requires db.progress == map[ProgressId(1) := Progress(PLAYER, LevelId(1)), ProgressId(2) := Progress(PLAYER, LevelId(2))]
    ensures Solved(db, PLAYER) == {LevelId(1), LevelId(2)}
  {
    assert db.progress[ProgressId(1)].level == LevelId(1) && db.progress[ProgressId(2)].level == LevelId(2);
  }

  const PLAYED := ACCOUNTS + LOGINS + (LEVELS + SOLVES)

  lemma TheRun(o: Oracles)
    requires PasswordsMatch(o)
    ensures Valid(EMPTY_DB)
    ensures var played := Run(o, EMPTY_DB, PLAYED);
      && Scene(played, map[LevelId(1) := At(10), LevelId(2) := At(20)], 2,
               map[ProgressId(1) := Progress(PLAYER, LevelId(1)), ProgressId(2) := Progress(PLAYER, LevelId(2))], 2)
      && Scene(Run(o, played, INSERTS),
               map[LevelId(1) := At(10), LevelId(2) := At(20), LevelId(3) := At(1), LevelId(4) := At(2)], 4,
               map[ProgressId(1) := Progress(PLAYER, LevelId(1)), ProgressId(2) := Progress(PLAYER, LevelId(2))], 2)
      && Run(o, EMPTY_DB, PLAYED + INSERTS) == Run(o, played, INSERTS)
  {
    AccountsMade(o);
    hide Valid;
    hide Step;
    hide Run;
    hide Scene;
    var made := Run(o, EMPTY_DB, ACCOUNTS);
    RunAppend(o, EMPTY_DB, ACCOUNTS, LOGINS);
    BothLoggedIn(o, made);
    var ready := Run(o, made, LOGINS);
    LevelsAdded(o, ready);
    LevelsSolved(o, Run(o, ready, LEVELS));
    RunAppend(o, ready, LEVELS, SOLVES);
    RunAppend(o, EMPTY_DB, ACCOUNTS + LOGINS, LEVELS + SOLVES);
    LevelsInserted(o, Run(o, EMPTY_DB, PLAYED),
                   map[ProgressId(1) := Progress(PLAYER, LevelId(1)), ProgressId(2) := Progress(PLAYER, LevelId(2))]);
    RunAppend(o, EMPTY_DB, PLAYED, INSERTS);
  }

  lemma FourRanks(db: Db)
    requires db.levels == map[LevelId(1) := At(10), LevelId(2) := At(20), LevelId(3) := At(1), LevelId(4) := At(2)]
    requires Solved(db, PLAYER) == {LevelId(1), LevelId(2)}
    ensures Rank(Catalogue(db), 20) == 4
    ensures |UnsolvedBelow(db, PLAYER, LevelId(2))| == 2
    ensures |First(Catalogue(db), 2) - Solved(db, PLAYER)| == 2
  {
    hide LevelsOf;
    var ord := Catalogue(db);
    assert ord == map[LevelId(1) := 10, LevelId(2) := 20, LevelId(3) := 1, LevelId(4) := 2];
    assert UpTo(ord, 1) == {LevelId(3)};
    assert UpTo(ord, 2) == {LevelId(3), LevelId(4)};
    assert UpTo(ord, 10) == {LevelId(1), LevelId(3), LevelId(4)};
    assert UpTo(ord, 20) == {LevelId(1), LevelId(2), LevelId(3), LevelId(4)};
    assert UnsolvedBelow(db, PLAYER, LevelId(2)) == {LevelId(3), LevelId(4)};
    assert First(ord, 2) - Solved(db, PLAYER) == {LevelId(3), LevelId(4)};
  }

  lemma LockedAtTheEnd(db: Db)
    requires Valid(db) && LevelId(2) in db.levels && db.levels[LevelId(2)].orderIndex == 20
    requires Solved(db, PLAYER) == {LevelId(1), LevelId(2)} && Rank(Catalogue(db), 20) == 4
    ensures LevelId(2) in LockedSolved(db, PLAYER)
  {
    hide Valid;
    hide LevelsOf;
    hide RowsOf;
    hide OrderOf;
    hide Rank;
    hide Accessible;
    Standing(db, PLAYER);
    hide Injective;
    hide First;
    AccessibleIffGate(db, PLAYER, LevelId(2));
  }

  lemma AtTheEnd(db: Db)
    requires Scene(db, map[LevelId(1) := At(10), LevelId(2) := At(20), LevelId(3) := At(1), LevelId(4) := At(2)], 4,
                   map[ProgressId(1) := Progress(PLAYER, LevelId(1)), ProgressId(2) := Progress(PLAYER, LevelId(2))], 2)
    ensures ADMIN in Admins(db) && Solved(db, PLAYER) == {LevelId(1), LevelId(2)}
    ensures LevelId(2) in LockedSolved(db, PLAYER) && !SolvedPlusNext(db, PLAYER) && GapOf(db, PLAYER) == 2
  {
    hide Valid;
    hide SolvedPlusNext;
    hide LockedSolved;
    hide LevelsOf;
    hide OrderOf;
    hide First;
    hide Rank;
    hide UnsolvedBelow;
    SolvedTwo(db);
    FourRanks(db);
    LockedAtTheEnd(db);
    SolvedPlusNextIff(db, PLAYER);
  }

  lemma WhenPlayed(db: Db)
    requires Scene(db, map[LevelId(1) := At(10), LevelId(2) := At(20)], 2,
                   map[ProgressId(1) := Progress(PLAYER, LevelId(1)), ProgressId(2) := Progress(PLAYER, LevelId(2))], 2)
    ensures Solved(db, PLAYER) == db.levels.Keys == {LevelId(1), LevelId(2)} && GapOf(db, PLAYER) == 0
  {
    hide Valid;
    SolvedTwo(db);
    hide LevelsOf;
    hide GapOf;
    AllSolvedNoGap(db);
  }

  /** From the empty database: an admin adds two levels, a player solves both, the
      admin puts two more in front, and a solved level is locked. */
  lemma ClaimCanFail(o: Oracles)
    requires PasswordsMatch(o)
    ensures Valid(EMPTY_DB)
    ensures var played := Run(o, EMPTY_DB, PLAYED);
      Solved(played, PLAYER) == played.levels.Keys == {LevelId(1), LevelId(2)}
    ensures var db := Run(o, EMPTY_DB, PLAYED + INSERTS);
      && ADMIN in Admins(db)
      && Solved(db, PLAYER) == {LevelId(1), LevelId(2)}
      && LevelId(2) in LockedSolved(db, PLAYER)
      && !SolvedPlusNext(db, PLAYER)
  {
    hide Run;
    hide Scene;
    hide SolvedPlusNext;
    hide Valid;
    TheRun(o);
    WhenPlayed(Run(o, EMPTY_DB, PLAYED));
    AtTheEnd(Run(o, EMPTY_DB, PLAYED + INSERTS));
  }

  lemma AddPlaces(o: Oracles, db: Db, orderIndex: int)
    requires Valid(db) && PLAYER in db.users && Step(o, db, Add(orderIndex)).response == Created201
    ensures !Resets(o, db, Add(orderIndex), PLAYER) && Placements(o, db, Add(orderIndex)) == 1
  {
    hide Step;
    hide Valid;
  }

  lemma InsertsDrift(o: Oracles, db: Db, progress: map<ProgressId, Progress>)
    requires Scene(db, map[LevelId(1) := At(10), LevelId(2) := At(20)], 2, progress, 2)
    ensures Drift(o, db, INSERTS, PLAYER, 0) == 2
  {
    hide Valid;
    hide Resets;
    hide Placements;
    hide Step;
    var levels := map[LevelId(1) := At(10), LevelId(2) := At(20)];
    AddStep(o, db, levels, 2, progress, 2, 1);
    AddPlaces(o, db, 1);
    var next := Step(o, db, INSERTS[0]).db;
    AddStep(o, next, levels[LevelId(3) := At(1)], 3, progress, 2, 2);
    AddPlaces(o, next, 2);
    var last := Step(o, next, INSERTS[1]).db;
    assert INSERTS[1..] == [INSERTS[1]] && [INSERTS[1]][1..] == [];
    assert Drift(o, last, [], PLAYER, 2) == 2;
    assert Drift(o, next, [INSERTS[1]], PLAYER, 1) == 2;
  }

  /** The drift bound cannot be improved: two placements since the last reset leave a
      gap of two. */
  lemma DriftIsAttained(o: Oracles)
    requires PasswordsMatch(o)
    ensures Valid(EMPTY_DB)
    ensures var played := Run(o, EMPTY_DB, PLAYED);
      GapOf(played, PLAYER) == 0 && GapOf(Run(o, played, INSERTS), PLAYER) == 2 == Drift(o, played, INSERTS, PLAYER, 0)
  {
    hide Run;
    hide Scene;
    hide Drift;
    hide GapOf;
    hide SolvedPlusNext;
    hide Valid;
    TheRun(o);
    var played := Run(o, EMPTY_DB, PLAYED);
    WhenPlayed(played);
    AtTheEnd(Run(o, played, INSERTS));
    InsertsDrift(o, played, map[ProgressId(1) := Progress(PLAYER, LevelId(1)), ProgressId(2) := Progress(PLAYER, LevelId(2))]);
  }

  lemma AllSolvedNoGap(db: Db)
    requires Valid(db) && Solved(db, PLAYER) == db.levels.Keys
    ensures GapOf(db, PLAYER) == 0
  {
    hide LevelsOf;
    hide First;
    Standing(db, PLAYER);
    FirstSize(Catalogue(db), |Solved(db, PLAYER)|);
    assert First(Catalogue(db), |Solved(db, PLAYER)|) - Solved(db, PLAYER) == {};
  }
}
