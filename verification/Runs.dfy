/** What holds along every run of whole requests, by players and admins alike. */
module Runs {
  import opened Sets
  import opened Ranking
  import opened Schema
  import opened Operations
  import opened OperationFacts
  import opened Hints
  import opened Sessions
  import opened Seed
  import opened Progression
  import opened System

  // ---------------------------------------------------------------------------
  // Drift: how far a player's solved set can get from a prefix

  /** 1 for a request that put a level in a new place, 0 for any other. */
  ghost function Placements(o: Oracles, db: Db, r: Request): nat
    requires Valid(db)
  {
    if r.Call? && PlacesLevel(db.levels, r.action, Step(o, db, r).response) then 1 else 0
  }

  /** The request registered u, set u's progress, or reloaded the content. */
  ghost predicate Resets(o: Oracles, db: Db, r: Request, u: UserId)
    requires Valid(db)
  {
    || (u !in db.users && u in Step(o, db, r).db.users)
    || (r.Call? && SetsProgress(r.action, Step(o, db, r).response, u))
    || (r.Reseed? && Step(o, db, r).response == Ok200)
  }

  /** start plus the placements in the run, counted from u's last reset. */
  ghost function Drift(o: Oracles, db: Db, rs: seq<Request>, u: UserId, start: nat): nat
    requires Valid(db)
    decreases |rs|
  {
    if rs == [] then start
    else
      StepKeepsValid(o, db, rs[0]);
      Drift(o, Step(o, db, rs[0]).db, rs[1..], u,
            if Resets(o, db, rs[0], u) then 0 else start + Placements(o, db, rs[0]))
  }

  lemma SubmitGap(o: Oracles, db: Db, u: UserId, id: LevelId, answer: string, v: UserId)
    requires Valid(db) && u in db.users
    ensures GapOf(Submit(o, db, u, id, answer).db, v) <= GapOf(db, v)
  {
    hide Valid;
    hide GapOf;
    hide CurrentLevel;
    hide Rank;
    if Submit(o, db, u, id, answer).response == Answered(true) {
      AccessibleIffGate(db, u, id);
      SolveKeepsGap(db, u, id, v);
    }
  }

  lemma UpdateAccountGap(db: Db, actor: UserId, id: UserId, role: Option<string>, target: Option<int>, v: UserId)
    requires Valid(db)
    ensures var out := UpdateAccount(db, actor, id, role, target);
      GapOf(out.db, v) <= if v == id && target.Some? && out.response == Ok200 then 0 else GapOf(db, v)
  {
    hide Valid;
    hide Gap;
    hide LevelsOf;
    hide OrderOf;
    hide SetUserProgressToLevel;
    if UpdateAccount(db, actor, id, role, target).response == Ok200 && target.Some? {
      WithRoleKeepsValid(db, id, role);
      SetProgressTheorem(WithRole(db, id, role), id, target.value);
    }
  }

  lemma UpdateAccountSolved(db: Db, actor: UserId, id: UserId, role: Option<string>, target: Option<int>, v: UserId)
    requires Valid(db)
    requires v != id || target.None? || UpdateAccount(db, actor, id, role, target).response != Ok200
    ensures Solved(UpdateAccount(db, actor, id, role, target).db, v) == Solved(db, v)
  {
    hide LevelsOf;
    hide SetUserProgressToLevel;
    hide Valid;
    WithRoleKeepsValid(db, id, role);
    if target.Some? && id in db.users {
      SetProgressEffect(WithRole(db, id, role), id, target.value);
    }
  }

  lemma NewLevelGap(db: Db, input: Level, v: UserId)
    requires Valid(db) && CreateLevel(db, input).result.Ok?
    ensures GapOf(CreateLevel(db, input).db, v) <= GapOf(db, v) + 1
  {
    CreateLevelKeepsValid(db, input);
    CreateLevelEffect(db, input);
    PlacementGap(db, CreateLevel(db, input).db, LevelId(db.levelSeq + 1), input.orderIndex, v);
  }

  lemma EditLevelGap(db: Db, id: LevelId, input: Level, v: UserId)
    requires Valid(db) && UpdateLevel(db, id, input).result.Ok?
    ensures GapOf(UpdateLevel(db, id, input).db, v) <= GapOf(db, v) + 1
    ensures db.levels[id].orderIndex == input.orderIndex ==> GapOf(UpdateLevel(db, id, input).db, v) == GapOf(db, v)
  {
    UpdateLevelKeepsValid(db, id, input);
    UpdateLevelEffect(db, id, input);
    Replaced(Catalogue(db), id, input.orderIndex);
    PlacementGap(db, UpdateLevel(db, id, input).db, id, input.orderIndex, v);
  }

  lemma NoSolvesNoGap(db: Db, u: UserId)
    requires Valid(db) && Solved(db, u) == {}
    ensures GapOf(db, u) == 0
  {
    Standing(db, u);
    FirstSize(Catalogue(db), 0);
  }

  lemma DropUserGap(db: Db, id: UserId, v: UserId)
    requires Valid(db)
    ensures GapOf(DeleteUser(db, id).db, v) <= GapOf(db, v)
  {
    if id in db.users {
      DeleteUserKeepsValid(db, id);
      DeleteUserEffect(db, id);
      if v == id {
        NoSolvesNoGap(DeleteUser(db, id).db, id);
      }
    }
  }

  /** The action put a level in a new place in db, as its response tells. */
  predicate PlacesLevel(levels: map<LevelId, Level>, action: Action, response: Response) {
    match action
    case NewLevel(_) => response == Created201
    case EditLevel(id, input) =>
      response == Ok200 && id in levels && levels[id].orderIndex != input.orderIndex
    case _ => false
  }

  predicate SetsProgress(action: Action, response: Response, v: UserId) {
    action.UpdateUser? && action.user == v && action.target.Some? && response == Ok200
  }

  /** What an action may leave of v's gap g. */
  function Budget(levels: map<LevelId, Level>, action: Action, response: Response, v: UserId, g: nat): nat {
    if SetsProgress(action, response, v) then 0
    else if PlacesLevel(levels, action, response) then g + 1
    else g
  }

  lemma SameGap(db: Db, db': Db, v: UserId)
    requires db'.levels == db.levels && db'.progress == db.progress
    ensures GapOf(db', v) == GapOf(db, v)
  {
  }

  predicate TouchesProgress(action: Action) {
    || action.SubmitFlag? || action.NewLevel? || action.EditLevel? || action.DropLevel?
    || action.UpdateUser? || action.DropUser?
  }

  lemma AdministerFrame(db: Db, actor: UserId, action: Action)
    requires Valid(db) && !TouchesProgress(action)
    ensures var out := Administer(db, actor, action);
      out.db.levels == db.levels && out.db.progress == db.progress
  {
    hide Valid;
    if action.EditHints? {
      AddHintsFrame(ClearHints(db, action.id), action.id, action.texts);
    }
  }

  lemma NewLevelBudget(db: Db, actor: UserId, action: Action, v: UserId)
    requires Valid(db) && action.NewLevel?
    ensures var out := Administer(db, actor, action);
      GapOf(out.db, v) <= Budget(db.levels, action, out.response, v, GapOf(db, v))
  {
    hide GapOf;
    if CreateLevel(db, action.input).result.Ok? {
      NewLevelGap(db, action.input, v);
    }
  }

  lemma EditLevelBudget(db: Db, actor: UserId, action: Action, v: UserId)
    requires Valid(db) && action.EditLevel?
    ensures var out := Administer(db, actor, action);
      GapOf(out.db, v) <= Budget(db.levels, action, out.response, v, GapOf(db, v))
  {
    hide GapOf;
    if UpdateLevel(db, action.id, action.input).result.Ok? {
      EditLevelGap(db, action.id, action.input, v);
    }
  }

  lemma AdministerGap(db: Db, actor: UserId, action: Action, v: UserId)
    requires Valid(db) && !action.SubmitFlag?
    ensures var out := Administer(db, actor, action);
      GapOf(out.db, v) <= Budget(db.levels, action, out.response, v, GapOf(db, v))
  {
    hide GapOf;
    if action.NewLevel? {
      NewLevelBudget(db, actor, action, v);
    } else if action.EditLevel? {
      EditLevelBudget(db, actor, action, v);
    } else if action.DropLevel? {
      DeleteLevelKeepsGap(db, action.id, v);
    } else if action.UpdateUser? {
      UpdateAccountGap(db, actor, action.user, action.role, action.target, v);
    } else if action.DropUser? {
      DropUserGap(db, action.user, v);
    } else {
      AdministerFrame(db, actor, action);
      SameGap(db, Administer(db, actor, action).db, v);
    }
  }

  lemma PerformGap(o: Oracles, db: Db, u: UserId, role: string, action: Action, v: UserId)
    requires Valid(db) && u in db.users
    ensures var out := Perform(o, db, u, role, action);
      GapOf(out.db, v) <= Budget(db.levels, action, out.response, v, GapOf(db, v))
  {
    hide GapOf;
    if action.SubmitFlag? {
      SubmitGap(o, db, u, action.level, action.answer, v);
    } else if !action.Read? && role == ROLE_ADMIN {
      AdministerGap(db, u, action, v);
    }
  }

  /** Admission touches the sessions table only; then the action runs, or nothing. */
  lemma ServeShape(o: Oracles, db: Db, token: string, clock: Clock, action: Action)
    requires Valid(db)
    ensures var (db', a) := RequireLogin(db, token, clock);
      && Valid(db') && db' == db.(sessions := db'.sessions)
      && (a.Admitted? ==> a.user in db'.users && a.role == db'.users[a.user].role)
      && (a.Admitted? ==> Serve(o, db, token, clock, action) == Perform(o, db', a.user, a.role, action))
      && (!a.Admitted? ==> Serve(o, db, token, clock, action).db == db')
      && (!a.Admitted? ==> Serve(o, db, token, clock, action).response
                             == if a.Expired? then Expired401 else Unauthorized401)
  {
    hide Valid;
    hide Perform;
    RequireLoginKeepsValid(db, token, clock);
  }

  lemma ServeGap(o: Oracles, db: Db, token: string, clock: Clock, action: Action, v: UserId)
    requires Valid(db)
    ensures var out := Serve(o, db, token, clock, action);
      GapOf(out.db, v) <= Budget(db.levels, action, out.response, v, GapOf(db, v))
  {
    hide GapOf;
    ServeShape(o, db, token, clock, action);
    var (db', a) := RequireLogin(db, token, clock);
    SameGap(db, db', v);
    if a.Admitted? {
      PerformGap(o, db', a.user, a.role, action, v);
    }
  }

  lemma NoCallFrame(o: Oracles, db: Db, r: Request)
    requires Valid(db) && !r.Call? && !r.Reseed?
    ensures Step(o, db, r).db.levels == db.levels && Step(o, db, r).db.progress == db.progress
    ensures Step(o, db, r).db.levelSeq == db.levelSeq
  {
    hide Valid;
  }

  lemma NoCallGap(o: Oracles, db: Db, r: Request, u: UserId)
    requires Valid(db) && !r.Call?
    ensures GapOf(Step(o, db, r).db, u) <= if Resets(o, db, r, u) then 0 else GapOf(db, u)
  {
    hide GapOf;
    if r.Reseed? {
      if Loadable(r.seed) {
        LoadTheorem(db, r.seed);
        NoSolvesNoGap(Loaded(db, r.seed), u);
      }
    } else {
      NoCallFrame(o, db, r);
      SameGap(db, Step(o, db, r).db, u);
      if u !in db.users {
        NoAccountNoProgress(db, u);
        NoSolvesNoGap(db, u);
      }
    }
  }

  /** Only placing a level can widen anyone's gap, and by one; registering,
      setting progress and reseeding close it. */
  lemma StepGap(o: Oracles, db: Db, r: Request, u: UserId)
    requires Valid(db)
    ensures GapOf(Step(o, db, r).db, u)
         <= if Resets(o, db, r, u) then 0 else GapOf(db, u) + Placements(o, db, r)
  {
    hide GapOf;
    hide Serve;
    if u !in db.users && u in Step(o, db, r).db.users {
      NewcomerGap(o, db, r, u);
    } else if r.Call? {
      ServeGap(o, db, r.token, r.clock, r.action, u);
    } else {
      NoCallGap(o, db, r, u);
    }
  }

  lemma NewcomerGap(o: Oracles, db: Db, r: Request, u: UserId)
    requires Valid(db) && u !in db.users && u in Step(o, db, r).db.users
    ensures GapOf(Step(o, db, r).db, u) == 0
  {
    NoAccountNoProgress(db, u);
    NoSolvesNoGap(db, u);
    if r.Call? {
      ServeUsers(o, db, r.token, r.clock, r.action);
    } else {
      NoCallGap(o, db, r, u);
    }
  }

  /** Requests of logged-in users create no accounts. */
  lemma ServeUsers(o: Oracles, db: Db, token: string, clock: Clock, action: Action)
    requires Valid(db)
    ensures Serve(o, db, token, clock, action).db.users.Keys <= db.users.Keys
    ensures Serve(o, db, token, clock, action).db.userSeq == db.userSeq
  {
    ServeShape(o, db, token, clock, action);
    var (db', a) := RequireLogin(db, token, clock);
    if a.Admitted? && !action.Read? && !action.SubmitFlag? {
      AdministerUsers(db', a.user, action);
    }
  }

  lemma AdministerUsers(db: Db, actor: UserId, action: Action)
    requires Valid(db)
    ensures Administer(db, actor, action).db.users.Keys <= db.users.Keys
    ensures Administer(db, actor, action).db.userSeq == db.userSeq
  {
    hide Valid;
    if action.EditHints? {
      AddHintsFrame(ClearHints(db, action.id), action.id, action.texts);
    } else if action.UpdateUser? {
      UpdateAccountUsers(db, actor, action.user, action.role, action.target);
    }
  }

  lemma UpdateAccountUsers(db: Db, actor: UserId, id: UserId, role: Option<string>, target: Option<int>)
    requires Valid(db)
    ensures var r := UpdateAccount(db, actor, id, role, target).db;
      && (r.users == db.users || (role.Some? && id in db.users && r.users == SetUserRole(db, id, role.value).db.users))
      && r.userSeq == db.userSeq
      && r == db.(users := r.users, progress := r.progress, progressSeq := r.progressSeq)
  {
    WithRoleKeepsValid(db, id, role);
    if target.Some? {
      SetProgressFrame(WithRole(db, id, role), id, target.value);
    }
  }

  /** Along any run, a player's gap is at most its initial value plus the number
      of placements since the player registered or last had progress set. */
  lemma {:induction false} DriftBound(o: Oracles, db: Db, rs: seq<Request>, u: UserId, start: nat)
    requires Valid(db) && GapOf(db, u) <= start
    ensures GapOf(Run(o, db, rs), u) <= Drift(o, db, rs, u, start)
    decreases |rs|
  {
    hide GapOf;
    hide Step;
    hide Resets;
    hide Placements;
    if rs != [] {
      StepKeepsValid(o, db, rs[0]);
      StepGap(o, db, rs[0], u);
      DriftBound(o, Step(o, db, rs[0]).db, rs[1..], u,
                 if Resets(o, db, rs[0], u) then 0 else start + Placements(o, db, rs[0]));
    }
  }

  /** No placements since the last reset: the player sees every solved level and
      the single next one. */
  lemma LinearHistory(o: Oracles, db: Db, rs: seq<Request>, u: UserId)
    requires Valid(db) && Drift(o, db, rs, u, GapOf(db, u)) == 0
    ensures Solved(Run(o, db, rs), u) == First(Catalogue(Run(o, db, rs)), |Solved(Run(o, db, rs), u)|)
    ensures SolvedPlusNext(Run(o, db, rs), u)
  {
    DriftBound(o, db, rs, u, GapOf(db, u));
    PrefixTheorem(Run(o, db, rs), u);
  }

  /** From an empty database, in any reachable state: the current level is between
      1 and one past the last, and an unfinished player has an open unsolved level. */
  lemma ReachableStates(o: Oracles, rs: seq<Request>, u: UserId)
    ensures Valid(EMPTY_DB)
    ensures 1 <= CurrentLevel(Run(o, EMPTY_DB, rs), u) <= |Run(o, EMPTY_DB, rs).levels| + 1
    ensures GapOf(Run(o, EMPTY_DB, rs), u) <= Drift(o, EMPTY_DB, rs, u, 0)
    ensures Solved(Run(o, EMPTY_DB, rs), u) != Run(o, EMPTY_DB, rs).levels.Keys ==>
      exists l :: l in Run(o, EMPTY_DB, rs).levels && l !in Solved(Run(o, EMPTY_DB, rs), u)
               && IsLevelAccessible(Run(o, EMPTY_DB, rs), u, Run(o, EMPTY_DB, rs).levels[l].orderIndex)
  {
    var db := Run(o, EMPTY_DB, rs);
    CountIsSolved(db, u);
    NoSolvesNoGap(EMPTY_DB, u);
    DriftBound(o, EMPTY_DB, rs, u, 0);
    NoDeadEnd(db, u);
  }

  lemma {:induction false} RunAppend(o: Oracles, db: Db, rs: seq<Request>, qs: seq<Request>)
    requires Valid(db)
    ensures Run(o, db, rs + qs) == Run(o, Run(o, db, rs), qs)
    decreases |rs|
  {
    hide Step;
    hide Valid;
    if rs == [] {
      assert rs + qs == qs;
    } else {
      StepKeepsValid(o, db, rs[0]);
      RunAppend(o, Step(o, db, rs[0]).db, rs[1..], qs);
      assert (rs + qs)[0] == rs[0] && (rs + qs)[1..] == rs[1..] + qs;
    }
  }

  // ---------------------------------------------------------------------------
  // Level ids

  /** Levels of db' are levels of db or got ids the counter had not reached. */
  ghost predicate FreshIds(db: Db, db': Db) {
    && db.levelSeq <= db'.levelSeq
    && forall l :: l in db'.levels ==> l in db.levels || db.levelSeq < l.n
  }

  lemma AdministerIds(db: Db, actor: UserId, action: Action)
    requires Valid(db)
    ensures FreshIds(db, Administer(db, actor, action).db)
  {
    hide Valid;
    if action.EditHints? {
      AddHintsFrame(ClearHints(db, action.id), action.id, action.texts);
    } else if action.UpdateUser? {
      UpdateAccountUsers(db, actor, action.user, action.role, action.target);
    }
  }

  lemma StepIds(o: Oracles, db: Db, r: Request)
    requires Valid(db) && !r.Reseed?
    ensures FreshIds(db, Step(o, db, r).db)
  {
    hide Administer;
    if r.Call? {
      ServeShape(o, db, r.token, r.clock, r.action);
      var (db', a) := RequireLogin(db, r.token, r.clock);
      if a.Admitted? && !r.action.Read? && !r.action.SubmitFlag? {
        AdministerIds(db', a.user, r.action);
      }
    } else {
      NoCallFrame(o, db, r);
    }
  }

  ghost predicate NoReseed(rs: seq<Request>) {
    forall i :: 0 <= i < |rs| ==> !rs[i].Reseed?
  }

  /** Outside the seed loader an id that names no level, and was handed out
      before, never names a level again. */
  lemma {:induction false} DeletedStaysDeleted(o: Oracles, db: Db, rs: seq<Request>, id: LevelId)
    requires Valid(db) && NoReseed(rs) && id !in db.levels && id.n <= db.levelSeq
    ensures id !in Run(o, db, rs).levels
    decreases |rs|
  {
    hide Step;
    if rs != [] {
      StepKeepsValid(o, db, rs[0]);
      StepIds(o, db, rs[0]);
      DeletedStaysDeleted(o, Step(o, db, rs[0]).db, rs[1..], id);
    }
  }

  /** A submission that read level id and records after any further requests either
      records a level that existed all along, or fails and changes nothing. */
  lemma StaleSubmit(o: Oracles, db: Db, rs: seq<Request>, u: UserId, id: LevelId)
    requires Valid(db) && NoReseed(rs) && id in db.levels
    ensures var later := Run(o, db, rs);
      var r := RecordSolved(later, u, id);
      || (r.result.Err? && r.db == later)
      || (forall k :: 0 <= k <= |rs| ==> id in Run(o, db, rs[..k]).levels)
  {
    var later := Run(o, db, rs);
    RecordSolvedEffect(later, u, id);
    if id in later.levels {
      forall k | 0 <= k <= |rs| ensures id in Run(o, db, rs[..k]).levels {
        var mid := Run(o, db, rs[..k]);
        RunAppend(o, db, rs[..k], rs[k..]);
        assert rs == rs[..k] + rs[k..];
        RunIds(o, db, rs[..k]);
        if id !in mid.levels {
          DeletedStaysDeleted(o, mid, rs[k..], id);
        }
      }
    }
  }

  lemma {:induction false} RunIds(o: Oracles, db: Db, rs: seq<Request>)
    requires Valid(db) && NoReseed(rs)
    ensures db.levelSeq <= Run(o, db, rs).levelSeq
    decreases |rs|
  {
    hide Step;
    if rs != [] {
      StepKeepsValid(o, db, rs[0]);
      StepIds(o, db, rs[0]);
      RunIds(o, Step(o, db, rs[0]).db, rs[1..]);
    }
  }

  // ---------------------------------------------------------------------------
  // There is always an admin

  lemma UpdateAccountGuard(db: Db, actor: UserId, id: UserId, role: Option<string>, target: Option<int>)
    requires Valid(db) && actor == id && role.Some? && role.value != ROLE_ADMIN
    ensures UpdateAccount(db, actor, id, role, target).db == db
  {
  }

  lemma AdministerKeepsActor(db: Db, actor: UserId, action: Action)
    requires Valid(db) && actor in db.users && db.users[actor].role == ROLE_ADMIN
    ensures var db' := Administer(db, actor, action).db;
      actor in db'.users && db'.users[actor].role == ROLE_ADMIN
  {
    hide Valid;
    if action.EditHints? {
      AddHintsFrame(ClearHints(db, action.id), action.id, action.texts);
    } else if action.UpdateUser? {
      UpdateAccountUsers(db, actor, action.user, action.role, action.target);
      if actor == action.user && action.role.Some? && action.role.value != ROLE_ADMIN {
        UpdateAccountGuard(db, actor, action.user, action.role, action.target);
      }
      hide UpdateAccount;
    }
  }

  lemma StepKeepsAdmin(o: Oracles, db: Db, r: Request)
    requires Valid(db) && Admins(db) != {}
    ensures Admins(Step(o, db, r).db) != {}
  {
    var a := Pick(Admins(db));
    if r.Call? {
      ServeKeepsAdmin(o, db, r.token, r.clock, r.action, a);
    } else if r.Reseed? {
      if Loadable(r.seed) {
        LoadTheorem(db, r.seed);
        assert a in Admins(Step(o, db, r).db);
      }
    } else {
      assert a in Admins(Step(o, db, r).db);
    }
  }

  lemma ServeKeepsAdmin(o: Oracles, db: Db, token: string, clock: Clock, action: Action, a: UserId)
    requires Valid(db) && a in Admins(db)
    ensures Admins(Serve(o, db, token, clock, action).db) != {}
  {
    hide Administer;
    hide Valid;
    hide Serve;
    ServeShape(o, db, token, clock, action);
    var (db', adm) := RequireLogin(db, token, clock);
    var out := Serve(o, db, token, clock, action).db;
    if adm.Admitted? && adm.role == ROLE_ADMIN && !action.Read? && !action.SubmitFlag? {
      AdministerKeepsActor(db', adm.user, action);
      assert adm.user in Admins(out);
    } else {
      assert out.users == db.users;
      assert a in Admins(out);
    }
  }

  /** Once there is an admin there always is one: the acting admin can be neither
      demoted nor deleted by the request being served. */
  lemma {:induction false} AlwaysAnAdmin(o: Oracles, db: Db, rs: seq<Request>)
    requires Valid(db) && Admins(db) != {}
    ensures Admins(Run(o, db, rs)) != {}
    decreases |rs|
  {
    hide Step;
    if rs != [] {
      StepKeepsValid(o, db, rs[0]);
      StepKeepsAdmin(o, db, rs[0]);
      AlwaysAnAdmin(o, Step(o, db, rs[0]).db, rs[1..]);
    }
  }

  // ---------------------------------------------------------------------------
  // Playing to the end

  datatype Move = Move(level: LevelId, answer: string)

  /** A correct submission of a level not solved before. */
  ghost predicate NewSolve(o: Oracles, db: Db, u: UserId, m: Move) {
    m.level !in Solved(db, u) && Submit(o, db, u, m.level, m.answer).response == Answered(true)
  }

  ghost predicate Solving(o: Oracles, db: Db, u: UserId, ms: seq<Move>)
    decreases |ms|
  {
    ms == [] || (NewSolve(o, db, u, ms[0]) && Solving(o, Submit(o, db, u, ms[0].level, ms[0].answer).db, u, ms[1..]))
  }

  ghost function Played(o: Oracles, db: Db, u: UserId, ms: seq<Move>): Db
    decreases |ms|
  {
    if ms == [] then db else Played(o, Submit(o, db, u, ms[0].level, ms[0].answer).db, u, ms[1..])
  }

  lemma NewSolveEffect(o: Oracles, db: Db, u: UserId, m: Move)
    requires Valid(db) && NewSolve(o, db, u, m)
    ensures var db' := Submit(o, db, u, m.level, m.answer).db;
      && Valid(db') && db'.levels == db.levels && db'.users == db.users
      && Solved(db', u) == Solved(db, u) + {m.level}
      && CurrentLevel(db', u) == CurrentLevel(db, u) + 1
  {
    hide Valid;
    hide Progression.IsLevelAccessible;
    hide LevelsOf;
    hide RowsOf;
    RecordSolvedKeepsValid(db, u, m.level);
    RecordSolvedEffect(db, u, m.level);
    CountIsSolved(db, u);
    CountIsSolved(Submit(o, db, u, m.level, m.answer).db, u);
  }

  lemma {:induction false} SolvingCounts(o: Oracles, db: Db, u: UserId, ms: seq<Move>)
    requires Valid(db) && Solving(o, db, u, ms)
    ensures var db' := Played(o, db, u, ms);
      && Valid(db') && db'.levels == db.levels && db'.users == db.users
      && |Solved(db', u)| == |Solved(db, u)| + |ms|
    decreases |ms|
  {
    if ms != [] {
      NewSolveEffect(o, db, u, ms[0]);
      SolvingCounts(o, Submit(o, db, u, ms[0].level, ms[0].answer).db, u, ms[1..]);
    }
  }

  /** With the catalogue at rest, a player can always go on until every level is
      solved, and no further: a sequence of new correct submissions cannot be
      extended exactly when its length is the number of levels left at the start. */
  lemma MaximalPlay(o: Oracles, db: Db, u: UserId, ms: seq<Move>)
    requires Valid(db) && u in db.users && Solving(o, db, u, ms)
    ensures |ms| <= |db.levels| - |Solved(db, u)|
    ensures (forall m :: !NewSolve(o, Played(o, db, u, ms), u, m)) <==> |ms| == |db.levels| - |Solved(db, u)|
  {
    SolvingCounts(o, db, u, ms);
    var last := Played(o, db, u, ms);
    CountIsSolved(last, u);
    SubsetSize(Solved(last, u), last.levels.Keys);
    if |ms| < |db.levels| - |Solved(db, u)| {
      NoDeadEnd(last, u);
      var l :| l in last.levels && l !in Solved(last, u) && IsLevelAccessible(last, u, last.levels[l].orderIndex);
      RecordSolvedEffect(last, u, l);
      assert NewSolve(o, last, u, Move(l, last.levels[l].flag));
    } else {
      SubsetEqual(Solved(last, u), last.levels.Keys);
    }
  }
}
