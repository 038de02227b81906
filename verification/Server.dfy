/** The request handlers, statement by statement over the store, and the seed
    loader. Each is proved to do exactly one step of the transition system. */
module Servers {
  import opened Schema
  import opened Operations
  import opened OperationFacts
  import opened Sessions
  import opened Seed
  import opened Progression
  import opened System
  import opened Stores
  import opened Runs
  import opened Submissions
  import opened AccountRequests

  class Server {
    const store: Store
    const o: Oracles

    constructor (store: Store, o: Oracles)
      ensures this.store == store && this.o == o
    {
      this.store := store;
      this.o := o;
    }

    /** Middleware: look the session up, expire or refresh it, admit. */
    method RequireLogin(token: string, clock: Clock) returns (a: Admission)
      requires store.Valid()
      modifies store
      ensures store.Valid()
      ensures (store.db, a) == Sessions.RequireLogin(old(store.db), token, clock)
    {
      if token == "" {
        return Unknown;
      }
      var found := store.SessionByToken(token);
      if found.Err? {
        return Unknown;
      }
      var (sess, user) := found.value;
      if clock.check > sess.expiresAt {
        store.DeleteSession(token);
        return Expired;
      }
      if sess.expiresAt - clock.remaining < SESSION_REFRESH_THRESHOLD {
        store.RefreshSession(token, clock.renew + SESSION_TTL);
      }
      return Admitted(sess.user, user.role);
    }

    method SubmitFlag(user: UserId, id: LevelId, answer: string) returns (r: Response)
      requires store.Valid()
      modifies store
      ensures store.Valid()
      ensures Outcome(store.db, r) == Submit(o, old(store.db), user, id, answer)
      ensures Judges(o, old(store.db), store.db, user, id, answer, r)
    {
      hide Judges;
      hide Schema.Valid;
      hide AccessibleList;
      hide Listed;
      hide Progression.IsLevelAccessible;
      AnswerEffect(o, store.db, user, id, answer);
      var level := store.LevelForSubmit(id);
      if level.Err? {
        return NotFound404;
      }
      var (orderIndex, flag) := level.value;
      var accessible := store.IsLevelAccessible(user, orderIndex);
      if !accessible {
        return Forbidden403;
      }
      var correct := o.lower(answer) == o.lower(flag);
      if correct {
        var w := store.RecordSolved(user, id);
        if w.Err? {
          return Internal500;
        }
      }
      return Answered(correct);
    }

    /** 404, 403, or the level with its solved mark. */
    method GetLevel(user: UserId, id: LevelId) returns (view: LevelView)
      requires store.Valid()
      ensures view == Progression.GetLevel(store.db, user, id)
      ensures view.Detail? <==> Listed(AccessibleList(store.db, user), id)
      ensures view.Detail? ==>
                && id in store.db.levels
                && view == Detail(id, store.db.levels[id].title, store.db.levels[id].description, id in Solved(store.db, user))
    {
      DetailIffListed(store.db, user, id);
      hide AccessibleList;
      var r := store.LevelByID(user, id);
      if r.Err? {
        return Missing;
      }
      var (item, level) := r.value;
      var accessible := store.IsLevelAccessible(user, level.orderIndex);
      if !accessible {
        return Locked;
      }
      return Detail(item.id, item.title, level.description, item.solved);
    }

    /** The existence check, then the counting gate. */
    method CheckLevel(user: UserId, id: LevelId) returns (r: Response)
      requires store.Valid()
      ensures r == Gate(store.db, user, id)
      ensures r == Ok200 <==> Listed(AccessibleList(store.db, user), id)
    {
      var view := GetLevel(user, id);
      r := match view
      case Missing => NotFound404
      case Locked => Forbidden403
      case Detail(_, _, _, _) => Ok200;
    }

    /** The GET routes: the gate runs before any file is touched. */
    method ServePage(user: UserId, role: string, page: Page) returns (r: Response)
      requires store.Valid()
      ensures r == View(store.db, user, role, page)
    {
      match page
      case Own =>
        r := Ok200;
      case LevelPage(id) =>
        r := CheckLevel(user, id);
      case HintsPage(id) =>
        r := CheckLevel(user, id);
      case LevelFile(id, base, path) =>
        r := CheckLevel(user, id);
        if r == Ok200 {
          r := Served(Files.Open(base, path));
        }
      case ToolFile(base, path) =>
        var unlocked := store.IsToolFileUnlocked(user, path);
        if !unlocked {
          return Forbidden403;
        }
        r := Served(Files.Open(base, path));
      case AdminList =>
        r := if role != ROLE_ADMIN then Forbidden403 else Ok200;
      case AdminHints(id) =>
        if role != ROLE_ADMIN {
          return Forbidden403;
        }
        r := if id in store.db.levels then Ok200 else NotFound404;
    }

    method Login(username: string, password: string, token: string, now: int) returns (r: Response)
      requires store.Valid()
      modifies store
      ensures store.Valid()
      ensures Outcome(store.db, r) == LogIn(o, old(store.db), username, password, token, now)
    {
      if username == "" || password == "" {
        return BadRequest400;
      }
      var found := store.UserByUsername(username);
      if found.Err? {
        return Unauthorized401;
      }
      var u := found.value;
      assert Named(store.db, username, u);
      if !o.matches(store.db.users[u].passwordHash, password) {
        return Unauthorized401;
      }
      var w := store.CreateSession(token, u, now + SESSION_TTL);
      if w.Err? {
        return Internal500;
      }
      return Ok200;
    }

    /** Guards first; then the role, then the progress, then the reloaded account. */
    method AdminUpdateUser(actor: UserId, id: UserId, role: Option<string>, target: Option<int>) returns (r: Response)
      requires store.Valid()
      modifies store
      ensures store.Valid()
      ensures Outcome(store.db, r) == UpdateAccount(old(store.db), actor, id, role, target)
      ensures r == Ok200 <==> MayUpdate(old(store.db), actor, id, role, target)
      ensures r == Ok200 ==> RoleGiven(old(store.db), store.db, id, role) && ProgressGiven(old(store.db), store.db, id, target)
    {
      UpdateAccountEffect(store.db, actor, id, role, target);
      hide RoleGiven;
      hide ProgressGiven;
      hide MayUpdate;
      if role.Some? {
        if role.value != ROLE_PLAYER && role.value != ROLE_ADMIN {
          return BadRequest400;
        }
        if id == actor && role.value != ROLE_ADMIN {
          return Conflict409;
        }
      }
      if target.Some? && target.value < 1 {
        return BadRequest400;
      }
      if role.Some? {
        var w := store.SetUserRole(id, role.value);
        if w.Err? {
          return NotFound404;
        }
      }
      if target.Some? {
        ghost var before := store.db;
        var w := store.SetUserProgressToLevel(id, target.value);
        SetProgressFrame(before, id, target.value);
        if w.Err? {
          return NotFound404;
        }
      }
      var account := store.AdminUserByID(id);
      if account.Err? {
        return NotFound404;
      }
      return Ok200;
    }

    method AdminResetPassword(id: UserId, hash: string) returns (r: Response)
      requires store.Valid()
      modifies store
      ensures store.Valid()
      ensures Outcome(store.db, r) == ResetAccount(old(store.db), id, hash)
      ensures r == Ok200 ==> forall t | t in store.db.sessions :: store.db.sessions[t].user != id
    {
      var w := store.UpdatePasswordHash(id, hash);
      if w.Err? {
        return NotFound404;
      }
      store.DeleteUserSessions(id);
      return Ok200;
    }

    method AdminDeleteUser(actor: UserId, id: UserId) returns (r: Response)
      requires store.Valid()
      modifies store
      ensures store.Valid()
      ensures Outcome(store.db, r) == Administer(old(store.db), actor, DropUser(id))
      ensures r == NoContent204 <==> id in old(store.db.users) && id != actor
      ensures actor in old(store.db.users) ==> actor in store.db.users
      ensures r == NoContent204 ==>
                && (forall t | t in store.db.sessions :: store.db.sessions[t].user != id)
                && forall v :: Solved(store.db, v) == if v == id then {} else Solved(old(store.db), v)
    {
      if id in store.db.users {
        DeleteUserEffect(store.db, id);
      }
      hide LevelsOf;
      if id == actor {
        return Conflict409;
      }
      var w := store.DeleteUser(id);
      return if w.Ok? then NoContent204 else NotFound404;
    }

    method AdminLevels(actor: UserId, action: Action) returns (r: Response)
      requires store.Valid() && (action.NewLevel? || action.EditLevel? || action.DropLevel? || action.EditHints?)
      modifies store
      ensures store.Valid()
      ensures Outcome(store.db, r) == Administer(old(store.db), actor, action)
    {
      match action
      case NewLevel(input) =>
        if input.orderIndex <= 0 {
          return BadRequest400;
        }
        var w := store.CreateLevel(input);
        return if w.Ok? then Created201 else Conflict409;
      case EditLevel(id, input) =>
        if input.orderIndex <= 0 {
          return BadRequest400;
        }
        var w := store.UpdateLevel(id, input);
        return if w.Ok? then Ok200 else if w.error == NotFound then NotFound404 else Conflict409;
      case DropLevel(id) =>
        var w := store.DeleteLevel(id);
        return if w.Ok? then NoContent204 else NotFound404;
      case EditHints(id, texts) =>
        var w := store.ReplaceHints(id, texts);
        return if w.Ok? then Ok200 else NotFound404;
    }

    method AdminTools(actor: UserId, action: Action) returns (r: Response)
      requires store.Valid() && (action.NewTool? || action.EditTool? || action.DropTool?)
      modifies store
      ensures store.Valid()
      ensures Outcome(store.db, r) == Administer(old(store.db), actor, action)
    {
      match action
      case NewTool(tool) =>
        var w := store.CreateTool(tool);
        return if w.Ok? then Created201 else BadRequest400;
      case EditTool(id, tool) =>
        var w := store.UpdateTool(id, tool);
        return if w.Ok? then Ok200 else if w.error == NotFound then NotFound404 else BadRequest400;
      case DropTool(id) =>
        var w := store.DeleteTool(id);
        return if w.Ok? then NoContent204 else NotFound404;
    }

    /** RequireAdmin's role check and the admin routes. */
    method AdminRoutes(actor: UserId, role: string, action: Action) returns (r: Response)
      requires store.Valid() && !action.Read? && !action.SubmitFlag?
      modifies store
      ensures store.Valid()
      ensures Outcome(store.db, r) == Perform(o, old(store.db), actor, role, action)
      ensures role != ROLE_ADMIN ==> r == Forbidden403 && store.db == old(store.db)
      ensures actor in Admins(old(store.db)) ==> actor in Admins(store.db)
    {
      if actor in Admins(store.db) {
        AdministerKeepsActor(store.db, actor, action);
      }
      hide Administer;
      if role != ROLE_ADMIN {
        return Forbidden403;
      }
      if action.UpdateUser? {
        r := AdminUpdateUser(actor, action.user, action.role, action.target);
      } else if action.ResetPassword? {
        r := AdminResetPassword(action.user, action.hash);
      } else if action.DropUser? {
        r := AdminDeleteUser(actor, action.user);
      } else if action.NewTool? || action.EditTool? || action.DropTool? {
        r := AdminTools(actor, action);
      } else {
        r := AdminLevels(actor, action);
      }
    }

    /** The route table: every request does exactly its step. */
    method Handle(req: Request) returns (r: Response)
      requires store.Valid()
      modifies store
      ensures store.Valid()
      ensures Outcome(store.db, r) == Step(o, old(store.db), req)
    {
      hide Administer;
      match req
      case Register(username, hash, now) =>
        var w := store.CreateUser(username, hash, now);
        r := if w.Ok? then Created201 else Conflict409;
      case Login(username, password, token, now) =>
        r := Login(username, password, token, now);
      case Logout(token) =>
        store.DeleteSession(token);
        r := NoContent204;
      case Call(token, clock, action) =>
        var a := RequireLogin(token, clock);
        match a {
          case Unknown => r := Unauthorized401;
          case Expired => r := Expired401;
          case Admitted(u, role) =>
            if action.Read? {
              r := ServePage(u, role, action.page);
            } else if action.SubmitFlag? {
              r := SubmitFlag(u, action.level, action.answer);
            } else {
              r := AdminRoutes(u, role, action);
            }
        }
      case Bootstrap(username, hash, now) =>
        var w := store.EnsureAdmin(username, hash, now);
        r := if w.Ok? then Ok200 else Internal500;
      case Reseed(seed) =>
        var ok := LoadSeed(seed);
        r := if ok then Ok200 else Internal500;
    }

    /** The whole load runs on the transaction's copy; the store sees it on commit. */
    method LoadSeed(seed: SeedFile) returns (ok: bool)
      requires store.Valid()
      modifies store
      ensures store.Valid()
      ensures ok <==> Loadable(seed)
      ensures store.db == if ok then Loaded(old(store.db), seed) else old(store.db)
    {
      var tx := Wipe(store.db);
      var good, tx1, levelID := InsertLevels(tx, seed.levels);
      if !good {
        return false;
      }
      var resolved, tx2 := InsertTools(tx1, seed.levels, levelID, seed.tools);
      if !resolved {
        return false;
      }
      LoadTheorem(store.db, seed);
      store.db := tx2;
      return true;
    }

    /** Levels and their hints, remembering each key's new id. */
    static method InsertLevels(start: Db, levels: seq<SeedLevel>)
      returns (ok: bool, tx: Db, levelID: map<string, LevelId>)
      requires start.levels == map[] && start.hints == map[] && start.levelSeq == 0 && start.hintSeq == 0
      ensures ok <==> GoodKeys(levels) && GoodOrder(levels)
      ensures ok ==> tx == AddLevels(start, levels)
      ensures ok ==> KeyMap(levels, levelID)
    {
      tx, levelID, ok := start, map[], true;
      var i := 0;
      EmptyLoaded(start);
      hide KeyMap;
      hide RowsLoaded;
      hide GoodKeys;
      hide GoodOrder;
      hide OrderTaken;
      hide AddLevels;
      hide AddHints;
      while i < |levels|
        invariant 0 <= i <= |levels|
        invariant GoodKeys(levels[..i]) && GoodOrder(levels[..i])
        invariant tx == AddLevels(start, levels[..i]) && RowsLoaded(tx.levels, tx.levelSeq, levels[..i])
        invariant KeyMap(levels[..i], levelID)
      {
        var l := levels[i];
        KeyRefused(levels, i, levelID);
        OrderRefused(levels, i, tx);
        if l.key == "" {
          return false, tx, levelID;
        }
        if l.key in levelID {
          return false, tx, levelID;
        }
        if OrderTaken(tx, l.orderIndex, None) {
          return false, tx, levelID;
        }
        KeyAccepted(levels, i, levelID);
        AddLevelRows(tx, levels[..i], l);
        var id := LevelId(tx.levelSeq + 1);
        tx := InsertLevel(tx, LevelRow(l));
        levelID := levelID[l.key := id];
        tx := Store.InsertHints(tx, id, l.hints);
        AddLevelsNext(start, levels, i);
        i := i + 1;
      }
      assert levels[..i] == levels;
    }

    static method InsertTools(start: Db, levels: seq<SeedLevel>, levelID: map<string, LevelId>, tools: seq<SeedTool>)
      returns (ok: bool, tx: Db)
      requires GoodKeys(levels) && KeyMap(levels, levelID)
      ensures ok <==> forall j :: 0 <= j < |tools| ==> GoodTool(levels, tools[j])
      ensures ok ==> tx == AddTools(start, levels, tools)
    {
      tx, ok := start, true;
      var j := 0;
      while j < |tools|
        invariant 0 <= j <= |tools|
        invariant forall k :: 0 <= k < j ==> GoodTool(levels, tools[k])
        invariant tx == AddTools(start, levels, tools[..j])
      {
        var t := tools[j];
        var unlocks: Option<LevelId> := None;
        if t.unlocksAt.Some? && t.unlocksAt.value != "" {
          ResolveMeans(levels, t.unlocksAt.value);
          if t.unlocksAt.value !in levelID {
            return false, tx;
          }
          unlocks := Some(levelID[t.unlocksAt.value]);
        }
        assert tools[..j + 1][..j] == tools[..j];
        tx := InsertTool(tx, Tool(t.kind, t.title, t.description, t.content, unlocks));
        j := j + 1;
      }
      assert tools[..j] == tools;
    }
  }

  // ---------------------------------------------------------------------------
  // The loader's key map

  /** Exactly the keys read so far, each with its level's id. */
  ghost predicate KeyMap(levels: seq<SeedLevel>, levelID: map<string, LevelId>) {
    && (forall key :: key in levelID <==> HasKey(levels, key))
    && (forall key :: key in levelID ==> Resolve(levels, key) == Some(levelID[key]))
  }

  lemma EmptyLoaded(start: Db)
    requires start.levels == map[] && start.levelSeq == 0
    ensures RowsLoaded(start.levels, start.levelSeq, []) && KeyMap([], map[]) && GoodKeys([]) && GoodOrder([])
    ensures AddLevels(start, []) == start
  {
  }

  lemma KeyRefused(levels: seq<SeedLevel>, i: nat, levelID: map<string, LevelId>)
    requires i < |levels| && KeyMap(levels[..i], levelID)
    ensures levels[i].key == "" || levels[i].key in levelID ==> !GoodKeys(levels)
  {
    if levels[i].key in levelID {
      var k :| 0 <= k < i && levels[..i][k].key == levels[i].key;
      assert levels[k].key == levels[i].key;
    }
  }

  lemma OrderRefused(levels: seq<SeedLevel>, i: nat, tx: Db)
    requires i < |levels| && RowsLoaded(tx.levels, tx.levelSeq, levels[..i]) && GoodOrder(levels[..i])
    ensures OrderTaken(tx, levels[i].orderIndex, None) ==> !GoodOrder(levels)
    ensures !OrderTaken(tx, levels[i].orderIndex, None) ==> GoodOrder(levels[..i + 1])
  {
    if OrderTaken(tx, levels[i].orderIndex, None) {
      var l :| l in tx.levels && tx.levels[l].orderIndex == levels[i].orderIndex;
      assert levels[l.n - 1].orderIndex == levels[i].orderIndex;
    } else {
      forall j, k | 0 <= j < k < i + 1 ensures levels[j].orderIndex != levels[k].orderIndex {
        if k == i {
          assert LevelId(j + 1) in tx.levels;
          assert tx.levels[LevelId(j + 1)] == LevelRow(levels[..i][j]);
        } else {
          assert levels[..i][j].orderIndex != levels[..i][k].orderIndex;
        }
      }
    }
  }

  lemma KeyAccepted(levels: seq<SeedLevel>, i: nat, levelID: map<string, LevelId>)
    requires i < |levels| && KeyMap(levels[..i], levelID) && GoodKeys(levels[..i])
    requires levels[i].key != "" && levels[i].key !in levelID
    ensures GoodKeys(levels[..i + 1])
    ensures KeyMap(levels[..i + 1], levelID[levels[i].key := LevelId(i + 1)])
  {
    var init, all := levels[..i], levels[..i + 1];
    assert all[..i] == init;
    forall j | 0 <= j < i ensures all[j].key != all[i].key {
      assert HasKey(init, init[j].key);
    }
    forall j, k | 0 <= j < k < i + 1 ensures all[j].key != all[k].key {
      if k < i {
        assert init[j].key != init[k].key;
      }
    }
    forall key ensures HasKey(all, key) <==> HasKey(init, key) || key == levels[i].key {
      if HasKey(init, key) {
        var j :| 0 <= j < i && init[j].key == key;
        assert all[j].key == key;
      }
      if HasKey(all, key) && key != levels[i].key {
        var j :| 0 <= j < |all| && all[j].key == key;
        assert init[j].key == key;
      }
      assert all[i].key == levels[i].key;
    }
  }
}
