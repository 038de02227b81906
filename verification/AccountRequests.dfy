/** What requests about accounts and sessions achieve, and the seed loader as a request. */
module AccountRequests {
  import opened Ranking
  import opened Schema
  import opened Operations
  import opened OperationFacts
  import opened Hints
  import opened Sessions
  import opened Seed
  import opened Progression
  import opened System
  import opened Submissions
  import opened Requests
  import Credentials

  // ---------------------------------------------------------------------------
  // Accounts

  /** The guards of an account update. */
  predicate MayUpdate(db: Db, actor: UserId, id: UserId, role: Option<string>, target: Option<int>) {
    && (role.Some? ==> role.value == "player" || role.value == "admin")
    && (role.Some? && id == actor ==> role.value == "admin")
    && (target.Some? ==> target.value >= 1)
    && id in db.users
  }

  /** The one account has the given role and nothing else of any account changed. */
  ghost predicate RoleGiven(db: Db, db': Db, id: UserId, role: Option<string>) {
    && db'.users.Keys == db.users.Keys
    && (forall v | v in db.users && v != id :: db'.users[v] == db.users[v])
    && (id in db.users ==> db'.users[id] == if role.None? then db.users[id] else db.users[id].(role := role.value))
    && Admins(db') == if role.None? then Admins(db)
                      else if role.value == "admin" then Admins(db) + {id} else Admins(db) - {id}
  }

  /** With a target the one account stands at that level, or one past the last; no
      other solved set changes, and without a target none does. */
  ghost predicate ProgressGiven(db: Db, db': Db, id: UserId, target: Option<int>) {
    && (forall v | v != id || target.None? :: Solved(db', v) == Solved(db, v))
    && (target.Some? ==>
          && Solved(db', id) == First(Catalogue(db), target.value - 1)
          && CurrentLevel(db', id) == Min(target.value, |db.levels| + 1)
          && GapOf(db', id) == 0)
  }

  /** An update is carried out iff its guards pass and the account exists. */
  lemma UpdateAccountEffect(db: Db, actor: UserId, id: UserId, role: Option<string>, target: Option<int>)
    requires Valid(db)
    ensures var out := UpdateAccount(db, actor, id, role, target);
      && (out.response == Ok200 <==> MayUpdate(db, actor, id, role, target))
      && (out.response != Ok200 ==> out.db == db)
      && (out.response == Ok200 ==>
            && out.db == db.(users := out.db.users, progress := out.db.progress, progressSeq := out.db.progressSeq)
            && RoleGiven(db, out.db, id, role) && ProgressGiven(db, out.db, id, target))
  {
    hide Valid;
    hide RoleGiven;
    hide ProgressGiven;
    hide WithRole;
    hide WithProgress;
    if MayUpdate(db, actor, id, role, target) {
      WithRoleKeepsValid(db, id, role);
      var db1 := WithRole(db, id, role);
      WithRoleEffect(db, id, role);
      WithProgressEffect(db1, id, target);
      Combined(db, db1, WithProgress(db1, id, target), id, role, target);
    }
  }

  lemma WithRoleEffect(db: Db, id: UserId, role: Option<string>)
    requires id in db.users
    ensures var r := WithRole(db, id, role);
      r == db.(users := r.users) && RoleGiven(db, r, id, role)
  {
    if role.Some? {
      SetUserRoleEffect(db, id, role.value);
    }
  }

  lemma WithProgressEffect(db: Db, id: UserId, target: Option<int>)
    requires Valid(db) && id in db.users && (target.Some? ==> target.value >= 1)
    ensures var r := WithProgress(db, id, target);
      r == db.(progress := r.progress, progressSeq := r.progressSeq) && ProgressGiven(db, r, id, target)
  {
    hide Valid;
    hide SetUserProgressToLevel;
    hide LevelsOf;
    hide First;
    hide GapOf;
    if target.Some? {
      SetProgressTheorem(db, id, target.value);
    }
  }

  lemma Combined(db: Db, mid: Db, last: Db, id: UserId, role: Option<string>, target: Option<int>)
    requires mid == db.(users := mid.users) && RoleGiven(db, mid, id, role)
    requires last == mid.(progress := last.progress, progressSeq := last.progressSeq) && ProgressGiven(mid, last, id, target)
    ensures RoleGiven(db, last, id, role) && ProgressGiven(db, last, id, target)
  {
    hide LevelsOf;
    hide First;
    hide GapOf;
  }

  lemma UpdateUserStep(o: Oracles, db: Db, token: string, clock: Clock, u: UserId,
                       id: UserId, role: Option<string>, target: Option<int>)
    requires Valid(db) && Enters(db, token, clock, u) && u in Admins(db)
    ensures var out := Step(o, db, Call(token, clock, UpdateUser(id, role, target)));
      && Valid(out.db) && Renewed(db.sessions, out.db.sessions, token)
      && (out.response == Ok200 <==> MayUpdate(db, u, id, role, target))
      && (out.response != Ok200 ==> out.db == db.(sessions := out.db.sessions))
      && (out.response == Ok200 ==>
            && out.db == db.(sessions := out.db.sessions, users := out.db.users,
                             progress := out.db.progress, progressSeq := out.db.progressSeq)
            && RoleGiven(db, out.db, id, role) && ProgressGiven(db, out.db, id, target))
  {
    hide Valid;
    hide RequireLogin;
    hide Renewed;
    hide UpdateAccount;
    hide LevelsOf;
    hide Gap;
    hide First;
    EnteredAdmin(o, db, token, clock, u, UpdateUser(id, role, target));
    hide Step;
    UpdateAccountEffect(RequireLogin(db, token, clock).0, u, id, role, target);
  }

  /** A reset replaces one password, ends every session of the account and no other. */
  lemma ResetPasswordStep(o: Oracles, db: Db, token: string, clock: Clock, u: UserId, id: UserId, hash: string)
    requires Valid(db) && Enters(db, token, clock, u) && u in Admins(db)
    ensures var out := Step(o, db, Call(token, clock, ResetPassword(id, hash)));
      && Valid(out.db)
      && out.response == (if id in db.users then Ok200 else NotFound404)
      && out.db == db.(sessions := out.db.sessions, users := out.db.users)
      && (id !in db.users ==> out.db.users == db.users && Renewed(db.sessions, out.db.sessions, token))
      && (id in db.users ==>
            && out.db.users == db.users[id := db.users[id].(passwordHash := hash)]
            && (forall t :: t in out.db.sessions <==> t in db.sessions && db.sessions[t].user != id)
            && (forall t | t in out.db.sessions :: out.db.sessions[t].user == db.sessions[t].user
                                                && (t != token ==> out.db.sessions[t] == db.sessions[t])))
  {
    hide Valid;
    hide RequireLogin;
    EnteredAdmin(o, db, token, clock, u, ResetPassword(id, hash));
    hide Step;
  }

  /** Deleting succeeds iff the account exists and is not the acting one; its sessions
      and solves go, and nothing else. */
  lemma DropUserStep(o: Oracles, db: Db, token: string, clock: Clock, u: UserId, id: UserId)
    requires Valid(db) && Enters(db, token, clock, u) && u in Admins(db)
    ensures var out := Step(o, db, Call(token, clock, DropUser(id)));
      && Valid(out.db)
      && out.response == (if id == u then Conflict409 else if id in db.users then NoContent204 else NotFound404)
      && (out.response != NoContent204 ==> out.db == db.(sessions := out.db.sessions) && Renewed(db.sessions, out.db.sessions, token))
      && (out.response == NoContent204 ==>
            && out.db == db.(sessions := out.db.sessions, users := out.db.users, progress := out.db.progress)
            && out.db.users.Keys == db.users.Keys - {id} && (forall v | v in out.db.users :: out.db.users[v] == db.users[v])
            && (forall t :: t in out.db.sessions <==> t in db.sessions && db.sessions[t].user != id)
            && (forall t | t in out.db.sessions :: out.db.sessions[t].user == db.sessions[t].user
                                                && (t != token ==> out.db.sessions[t] == db.sessions[t]))
            && (forall v :: Solved(out.db, v) == if v == id then {} else Solved(db, v)))
  {
    hide Valid;
    hide RequireLogin;
    hide LevelsOf;
    EnteredAdmin(o, db, token, clock, u, DropUser(id));
    hide Step;
    if id in db.users {
      DeleteUserEffect(RequireLogin(db, token, clock).0, id);
    }
  }

  lemma NamedIff(db: Db, username: string)
    ensures (exists u :: Named(db, username, u)) <==> NameTaken(db, username)
  {
    if NameTaken(db, username) {
      var u :| u in db.users && db.users[u].username == username;
      assert Named(db, username, u);
    }
  }

  /** Registering succeeds iff nobody has the name. The newcomer is a player at level 1
      who knows the password sent, and nobody else is touched. */
  lemma RegisterStep(o: Oracles, db: Db, username: string, hash: string, now: int)
    requires Valid(db)
    ensures var out, id := Step(o, db, Register(username, hash, now)), UserId(db.userSeq + 1);
      && out.response == (if exists u :: Named(db, username, u) then Conflict409 else Created201)
      && (out.response != Created201 ==> out.db == db)
      && (out.response == Created201 ==>
            && id !in db.users && out.db == db.(users := out.db.users, userSeq := id.n)
            && out.db.users == db.users[id := User(username, hash, "player", now)]
            && CurrentLevel(out.db, id) == 1 && Admins(out.db) == Admins(db)
            && (forall v :: Solved(out.db, v) == Solved(db, v)))
  {
    CreateUserEffect(db, username, hash, now);
    NamedIff(db, username);
    hide Valid;
    hide LevelsOf;
    hide RowsOf;
  }

  /** At start-up an admin account is made iff there is no admin; it fails iff the name
      is then taken. */
  lemma BootstrapStep(o: Oracles, db: Db, username: string, hash: string, now: int)
    requires Valid(db)
    ensures var out, id := Step(o, db, Bootstrap(username, hash, now)), UserId(db.userSeq + 1);
      && (Admins(db) != {} ==> out.db == db && out.response == Ok200)
      && (Admins(db) == {} && (exists u :: Named(db, username, u)) ==> out.db == db && out.response == Internal500)
      && (Admins(db) == {} && !(exists u :: Named(db, username, u)) ==>
            && out.response == Ok200 && id !in db.users && Admins(out.db) == {id}
            && out.db == db.(users := db.users[id := User(username, hash, "admin", now)], userSeq := id.n))
  {
    NamedIff(db, username);
    EnsureAdminEffect(db, username, hash, now);
    hide Valid;
    hide EnsureAdmin;
    hide Admins;
    hide NameTaken;
  }

  // ---------------------------------------------------------------------------
  // Sessions

  function WithSession(db: Db, token: string, u: UserId, expiresAt: int): Db {
    db.(sessions := db.sessions[token := Session(u, Truncate(expiresAt))])
  }

  /** Logging in either opens one new session for 30 days, to the second, on the account
      of that name, or changes nothing. */
  lemma LoginStep(o: Oracles, db: Db, username: string, password: string, token: string, now: int)
    requires Valid(db)
    ensures var out := Step(o, db, Login(username, password, token, now));
      && (out.response == Ok200 <==>
            && username != "" && password != "" && token !in db.sessions
            && exists u :: Named(db, username, u) && o.matches(db.users[u].passwordHash, password))
      && (out.response != Ok200 ==> out.db == db)
      && (out.response == Ok200 ==>
            exists u :: Named(db, username, u) && out.db == WithSession(db, token, u, now + 30 * DAY))
  {
    Credentials.LogInIff(o, db, username, password, token, now);
    var u := UserByUsername(db, username);
    if u.Some? {
      assert Named(db, username, u.value);
    }
    hide Valid;
  }

  /** Logging out removes that session and no other, and nothing else changes. */
  lemma LogoutStep(o: Oracles, db: Db, token: string)
    requires Valid(db)
    ensures var out := Step(o, db, Logout(token));
      && out.response == NoContent204
      && out.db == db.(sessions := out.db.sessions)
      && out.db.sessions.Keys == db.sessions.Keys - {token}
      && (forall t | t in out.db.sessions :: out.db.sessions[t] == db.sessions[t])
  {
    hide Valid;
  }

  // ---------------------------------------------------------------------------
  // The seed loader

  predicate NamesLevel(levels: seq<SeedLevel>, key: string) {
    key == "" || exists i :: 0 <= i < |levels| && levels[i].key == key
  }

  /** Keys are given and distinct, positions are distinct, and every tool with a key
      names a level. */
  predicate Acceptable(seed: SeedFile) {
    && (forall i | 0 <= i < |seed.levels| :: seed.levels[i].key != "")
    && (forall i, j | 0 <= i < j < |seed.levels| :: seed.levels[i].key != seed.levels[j].key)
    && (forall i, j | 0 <= i < j < |seed.levels| :: seed.levels[i].orderIndex != seed.levels[j].orderIndex)
    && (forall t | t in seed.tools && t.unlocksAt.Some? :: NamesLevel(seed.levels, t.unlocksAt.value))
  }

  lemma LoadableMeans(seed: SeedFile)
    ensures Loadable(seed) <==> Acceptable(seed)
  {
    assert forall j | 0 <= j < |seed.tools| :: seed.tools[j] in seed.tools;
  }

  /** Reloading succeeds iff the seed is acceptable. Each level then shows what its seed
      says, each tool too, tied to the level its key names, and nobody has solved
      anything; accounts and sessions stay. Otherwise nothing changes. */
  lemma ReseedStep(o: Oracles, db: Db, seed: SeedFile)
    requires Valid(db)
    ensures var out := Step(o, db, Reseed(seed));
      && Valid(out.db)
      && out.response == (if Acceptable(seed) then Ok200 else Internal500)
      && out.db.users == db.users && out.db.sessions == db.sessions && out.db.userSeq == db.userSeq
      && (!Acceptable(seed) ==> out.db == db)
      && (Acceptable(seed) ==>
            && (forall l :: l in out.db.levels <==> 1 <= l.n <= |seed.levels|)
            && (forall t :: t in out.db.tools <==> 1 <= t.n <= |seed.tools|)
            && (forall v :: Solved(out.db, v) == {}))
  {
    LoadableMeans(seed);
    if Loadable(seed) {
      LoadTheorem(db, seed);
      forall v ensures Solved(Loaded(db, seed), v) == {} {
        NoRowsNoSolves(Loaded(db, seed), v);
      }
    }
    hide Valid;
    hide LevelsOf;
    hide Loaded;
    hide Loadable;
    hide Acceptable;
  }

  lemma SeedShows(o: Oracles, db: Db, seed: SeedFile, i: nat)
    requires Valid(db) && Acceptable(seed) && i < |seed.levels|
    ensures Valid(Step(o, db, Reseed(seed)).db)
    ensures var after, l := Step(o, db, Reseed(seed)).db, seed.levels[i];
      && Shows(o, after, LevelId(i + 1), l.orderIndex, l.title, l.description, l.flag)
      && Texts(HintsForLevel(after, LevelId(i + 1))) == l.hints
      && NumberedFromOne(after.hints, LevelId(i + 1), l.hints)
  {
    LoadableMeans(seed);
    LoadTheorem(db, seed);
    var after := Loaded(db, seed);
    assert after == Step(o, db, Reseed(seed)).db;
    assert LevelId(i + 1) in after.levels;
    RowShows(o, after, LevelId(i + 1));
    hide Valid;
    hide Loaded;
    hide Step;
    hide Shows;
    hide NumberedFromOne;
    hide HintsForLevel;
    hide Texts;
  }

  /** A tool with a key is tied to the one level carrying it. */
  lemma SeedShowsKeyedTool(o: Oracles, db: Db, seed: SeedFile, j: nat, i: nat)
    requires Valid(db) && Acceptable(seed) && j < |seed.tools| && i < |seed.levels|
    requires seed.tools[j].unlocksAt == Some(seed.levels[i].key)
    ensures var t := seed.tools[j];
      ShowsTool(Step(o, db, Reseed(seed)).db, ToolId(j + 1),
                Tool(t.kind, t.title, t.description, t.content, Some(LevelId(i + 1))))
  {
    LoadableMeans(seed);
    LoadTheorem(db, seed);
    ResolveMeans(seed.levels, seed.levels[i].key);
    SeedShowsRow(o, db, seed, j);
    hide Valid;
    hide Loaded;
    hide Step;
    hide ShowsTool;
    hide LevelsLoaded;
    hide ToolsLoaded;
  }

  /** A tool without a key, or with an empty one, is everybody's. */
  lemma SeedShowsFreeTool(o: Oracles, db: Db, seed: SeedFile, j: nat)
    requires Valid(db) && Acceptable(seed) && j < |seed.tools|
    requires seed.tools[j].unlocksAt.None? || seed.tools[j].unlocksAt.value == ""
    ensures var t := seed.tools[j];
      ShowsTool(Step(o, db, Reseed(seed)).db, ToolId(j + 1), Tool(t.kind, t.title, t.description, t.content, None))
  {
    SeedShowsRow(o, db, seed, j);
    hide ShowsTool;
    hide Step;
  }

  lemma SeedShowsRow(o: Oracles, db: Db, seed: SeedFile, j: nat)
    requires Valid(db) && Acceptable(seed) && j < |seed.tools|
    ensures ShowsTool(Step(o, db, Reseed(seed)).db, ToolId(j + 1), ToolRow(seed.levels, seed.tools[j]))
  {
    hide ShowsTool;
    LoadableMeans(seed);
    LoadTheorem(db, seed);
    hide Valid;
    hide Loaded;
    hide LevelsLoaded;
    hide Loadable;
    hide ToolRow;
    ToolShows(Loaded(db, seed), ToolId(j + 1));
  }
}
