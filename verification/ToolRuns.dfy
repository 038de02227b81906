/** What can and cannot take an unlocked tool away, along every run. */
module ToolRuns {
  import opened Schema
  import opened Operations
  import opened OperationFacts
  import opened Hints
  import opened Sessions
  import opened System
  import opened Runs
  import opened Toolkit

  ghost predicate Keeps(db: Db, db': Db, u: UserId) {
    UnlockedIds(db, u) <= UnlockedIds(db', u)
  }

  /** An action, as its response tells, took something from v: it tied a tool to a
      level v has not solved, deleted a tool, rewrote v's progress or deleted v. */
  predicate Takes(solved: set<LevelId>, action: Action, response: Response, v: UserId) {
    match action
    case EditTool(_, tool) => response == Ok200 && tool.unlocksAt.Some? && tool.unlocksAt.value !in solved
    case DropTool(_) => response == NoContent204
    case UpdateUser(id, _, target) => response == Ok200 && id == v && target.Some?
    case DropUser(id) => response == NoContent204 && id == v
    case _ => false
  }

  /** Requests that may lock a tool for v again: those, and reloading the content. */
  ghost predicate Revokes(o: Oracles, db: Db, r: Request, v: UserId)
    requires Valid(db)
  {
    var response := Step(o, db, r).response;
    || (r.Reseed? && response == Ok200)
    || (r.Call? && Takes(Solved(db, v), r.action, response, v))
  }

  lemma SubmitKeepsTools(o: Oracles, db: Db, u: UserId, id: LevelId, answer: string, v: UserId)
    requires Valid(db)
    ensures Keeps(db, Submit(o, db, u, id, answer).db, v)
  {
    RecordSolvedEffect(db, u, id);
  }

  /** Deleting a level removes it from every solved set, but unties its tools in
      the same statement, so no toolkit shrinks. */
  lemma DeleteLevelKeepsTools(db: Db, id: LevelId, v: UserId)
    requires Valid(db)
    ensures Keeps(db, DeleteLevel(db, id).db, v)
  {
    if id in db.levels {
      DeleteLevelEffect(db, id);
      var db' := DeleteLevel(db, id).db;
      forall t | t in UnlockedIds(db, v) ensures t in UnlockedIds(db', v) {
        assert db'.tools[t] == Unassign(db.tools[t], id);
      }
    }
  }

  lemma SameToolsKept(db: Db, db': Db, v: UserId)
    requires Solved(db', v) == Solved(db, v) && db'.tools == db.tools
    ensures Keeps(db, db', v)
  {
  }

  lemma ToolWritesKeepTools(db: Db, actor: UserId, action: Action, v: UserId)
    requires Valid(db) && (action.NewTool? || action.EditTool? || action.DropTool?)
    requires !Takes(Solved(db, v), action, Administer(db, actor, action).response, v)
    ensures Keeps(db, Administer(db, actor, action).db, v)
  {
    hide UnlockedIds;
    hide Valid;
    match action
    case NewTool(tool) => CreateToolEffect(db, tool, v);
    case EditTool(id, tool) => UpdateToolEffect(db, id, tool, v);
    case DropTool(id) => DeleteToolEffect(db, id, v);
    case _ =>
  }

  /** Account writes touch no tool, and no solved set but the target's. */
  lemma AccountWritesKeepTools(db: Db, actor: UserId, action: Action, v: UserId)
    requires Valid(db) && (action.UpdateUser? || action.DropUser? || action.ResetPassword?)
    requires !Takes(Solved(db, v), action, Administer(db, actor, action).response, v)
    ensures Keeps(db, Administer(db, actor, action).db, v)
  {
    hide Valid;
    hide LevelsOf;
    if action.UpdateUser? {
      UpdateAccountSolved(db, actor, action.user, action.role, action.target, v);
      UpdateAccountUsers(db, actor, action.user, action.role, action.target);
    } else if action.DropUser? && action.user in db.users {
      DeleteUserEffect(db, action.user);
    }
    SameToolsKept(db, Administer(db, actor, action).db, v);
  }

  lemma LevelWritesKeepTools(db: Db, actor: UserId, action: Action, v: UserId)
    requires Valid(db) && (action.NewLevel? || action.EditLevel? || action.DropLevel? || action.EditHints?)
    ensures Keeps(db, Administer(db, actor, action).db, v)
  {
    hide Valid;
    hide Keeps;
    if action.DropLevel? {
      DeleteLevelKeepsTools(db, action.id, v);
    } else {
      if action.EditHints? {
        AddHintsFrame(ClearHints(db, action.id), action.id, action.texts);
      }
      SameToolsKept(db, Administer(db, actor, action).db, v);
    }
  }

  lemma AdministerKeepsTools(db: Db, actor: UserId, action: Action, v: UserId)
    requires Valid(db) && !action.Read? && !action.SubmitFlag?
    requires !Takes(Solved(db, v), action, Administer(db, actor, action).response, v)
    ensures Keeps(db, Administer(db, actor, action).db, v)
  {
    hide Administer;
    hide Takes;
    hide Keeps;
    if action.NewTool? || action.EditTool? || action.DropTool? {
      ToolWritesKeepTools(db, actor, action, v);
    } else if action.UpdateUser? || action.DropUser? || action.ResetPassword? {
      AccountWritesKeepTools(db, actor, action, v);
    } else {
      LevelWritesKeepTools(db, actor, action, v);
    }
  }

  lemma StepKeepsTools(o: Oracles, db: Db, r: Request, v: UserId)
    requires Valid(db) && !Revokes(o, db, r, v)
    ensures Keeps(db, Step(o, db, r).db, v)
  {
    hide Administer;
    hide Submit;
    hide RequireLogin;
    hide Takes;
    if r.Call? {
      ServeShape(o, db, r.token, r.clock, r.action);
      var (db', a) := RequireLogin(db, r.token, r.clock);
      if a.Admitted? && r.action.SubmitFlag? {
        SubmitKeepsTools(o, db', a.user, r.action.level, r.action.answer, v);
      } else if a.Admitted? && !r.action.Read? && a.role == ROLE_ADMIN {
        AdministerKeepsTools(db', a.user, r.action, v);
      }
    } else if !r.Reseed? {
      NoCallFrame(o, db, r);
      NoCallTools(o, db, r);
      SameToolsKept(db, Step(o, db, r).db, v);
    }
  }

  lemma NoCallTools(o: Oracles, db: Db, r: Request)
    requires Valid(db) && !r.Call? && !r.Reseed?
    ensures Step(o, db, r).db.tools == db.tools
  {
    hide Valid;
  }

  ghost predicate RevokesAlong(o: Oracles, db: Db, rs: seq<Request>, v: UserId)
    requires Valid(db)
    decreases |rs|
  {
    if rs == [] then false
    else
      StepKeepsValid(o, db, rs[0]);
      Revokes(o, db, rs[0], v) || RevokesAlong(o, Step(o, db, rs[0]).db, rs[1..], v)
  }

  /** In a run that takes nothing from a player, the player's toolkit never shrinks. */
  lemma {:induction false} ToolsNeverRegress(o: Oracles, db: Db, rs: seq<Request>, v: UserId)
    requires Valid(db) && !RevokesAlong(o, db, rs, v)
    ensures UnlockedIds(db, v) <= UnlockedIds(Run(o, db, rs), v)
    decreases |rs|
  {
    hide Step;
    hide Revokes;
    hide UnlockedIds;
    if rs != [] {
      StepKeepsValid(o, db, rs[0]);
      StepKeepsTools(o, db, rs[0], v);
      ToolsNeverRegress(o, Step(o, db, rs[0]).db, rs[1..], v);
    }
  }
}
