/** Every operation keeps the constraints, and what each one does to the ordered
    catalogue and to every player's solved set. */
module OperationFacts {
  import opened Ranking
  import opened Schema
  import opened Operations

  // ---------------------------------------------------------------------------
  // Constraints are kept

  lemma CreateUserKeepsValid(db: Db, username: string, hash: string, now: int)
    requires Valid(db)
    ensures Valid(CreateUser(db, username, hash, now).db)
  {
  }

  lemma EnsureAdminKeepsValid(db: Db, username: string, hash: string, now: int)
    requires Valid(db)
    ensures Valid(EnsureAdmin(db, username, hash, now).db)
  {
  }

  lemma SetUserRoleKeepsValid(db: Db, id: UserId, role: string)
    requires Valid(db)
    ensures Valid(SetUserRole(db, id, role).db)
  {
  }

  lemma UpdatePasswordHashKeepsValid(db: Db, id: UserId, hash: string)
    requires Valid(db)
    ensures Valid(UpdatePasswordHash(db, id, hash).db)
  {
  }

  lemma DeleteUserKeepsValid(db: Db, id: UserId)
    requires Valid(db)
    ensures Valid(DeleteUser(db, id).db)
  {
  }

  lemma RecordSolvedKeepsValid(db: Db, u: UserId, l: LevelId)
    requires Valid(db)
    ensures Valid(RecordSolved(db, u, l).db)
  {
  }

  lemma CreateLevelKeepsValid(db: Db, input: Level)
    requires Valid(db)
    ensures Valid(CreateLevel(db, input).db)
  {
  }

  lemma UpdateLevelKeepsValid(db: Db, id: LevelId, input: Level)
    requires Valid(db)
    ensures Valid(UpdateLevel(db, id, input).db)
  {
  }

  lemma DeleteLevelKeepsValid(db: Db, id: LevelId)
    requires Valid(db)
    ensures Valid(DeleteLevel(db, id).db)
  {
  }

  lemma CreateToolKeepsValid(db: Db, input: Tool)
    requires Valid(db)
    ensures Valid(CreateTool(db, input).db)
  {
  }

  lemma UpdateToolKeepsValid(db: Db, id: ToolId, input: Tool)
    requires Valid(db)
    ensures Valid(UpdateTool(db, id, input).db)
  {
  }

  lemma DeleteToolKeepsValid(db: Db, id: ToolId)
    requires Valid(db)
    ensures Valid(DeleteTool(db, id).db)
  {
  }

  lemma SessionOpsKeepValid(db: Db, token: string, session: Session, id: UserId, expiresAt: int)
    requires Valid(db)
    ensures Valid(InsertSession(db, token, session).db)
    ensures Valid(DeleteSession(db, token))
    ensures Valid(DeleteUserSessions(db, id))
    ensures Valid(SetExpiry(db, token, expiresAt))
  {
  }

  // ---------------------------------------------------------------------------
  // Recording a solve

  lemma SolvedMeans(db: Db, u: UserId, l: LevelId)
    ensures l in Solved(db, u) <==> HasSolved(db, u, l)
  {
    if l in Solved(db, u) {
      var p :| p in db.progress && db.progress[p].user == u && db.progress[p].level == l;
      assert db.progress[p] == Progress(u, l);
    }
  }

  lemma InsertProgressEffect(db: Db, row: Progress)
    requires ProgressIds(db.progress, db.progressSeq)
    ensures forall v :: Solved(InsertProgress(db, row), v)
                     == if v == row.user then Solved(db, v) + {row.level} else Solved(db, v)
  {
    var id := ProgressId(db.progressSeq + 1);
    var db' := InsertProgress(db, row);
    assert id !in db.progress;
    forall v ensures Solved(db', v) == if v == row.user then Solved(db, v) + {row.level} else Solved(db, v) {
      forall l | l in Solved(db, v) ensures l in Solved(db', v) {
        var p :| p in db.progress && db.progress[p].user == v && db.progress[p].level == l;
        assert p in db'.progress && db'.progress[p].user == v && db'.progress[p].level == l;
      }
      if v == row.user {
        assert db'.progress[id].user == v && db'.progress[id].level == row.level;
      }
    }
  }

  /** A solve is stored iff the account and the level exist; storing it adds that
      level to that player and nothing else. */
  lemma RecordSolvedEffect(db: Db, u: UserId, l: LevelId)
    requires Valid(db)
    ensures RecordSolved(db, u, l).result.Ok? <==> u in db.users && l in db.levels
    ensures RecordSolved(db, u, l).result.Err? ==> RecordSolved(db, u, l).db == db
    ensures RecordSolved(db, u, l).result.Ok? ==>
      forall v :: Solved(RecordSolved(db, u, l).db, v) == if v == u then Solved(db, v) + {l} else Solved(db, v)
  {
    SolvedMeans(db, u, l);
    if HasSolved(db, u, l) {
      assert Solved(db, u) == Solved(db, u) + {l};
    } else if u in db.users && l in db.levels {
      InsertProgressEffect(db, Progress(u, l));
    }
  }

  // ---------------------------------------------------------------------------
  // Removing rows

  lemma KeepSolved(db: Db, db': Db, v: UserId, gone: set<LevelId>)
    requires forall p | p in db'.progress && db'.progress[p].user == v ::
               p in db.progress && db'.progress[p] == db.progress[p] && db.progress[p].level !in gone
    requires forall p | p in db.progress && db.progress[p].user == v && db.progress[p].level !in gone ::
               p in db'.progress && db'.progress[p] == db.progress[p]
    ensures Solved(db', v) == Solved(db, v) - gone
  {
    forall l | l in Solved(db, v) - gone ensures l in Solved(db', v) {
      var p :| p in db.progress && db.progress[p].user == v && db.progress[p].level == l;
      assert p in db'.progress;
    }
    forall l | l in Solved(db', v) ensures l in Solved(db, v) - gone {
      var p :| p in db'.progress && db'.progress[p].user == v && db'.progress[p].level == l;
      assert p in db.progress;
    }
  }

  lemma DeleteLevelEffect(db: Db, id: LevelId)
    requires Valid(db) && id in db.levels
    ensures Catalogue(DeleteLevel(db, id).db) == Without(Catalogue(db), id)
    ensures forall v :: Solved(DeleteLevel(db, id).db, v) == Solved(db, v) - {id}
  {
    hide Valid;
    hide LevelsOf;
    var db' := DeleteLevel(db, id).db;
    forall v ensures Solved(db', v) == Solved(db, v) - {id} {
      KeepSolved(db, db', v, {id});
    }
  }

  lemma ClearProgressEffect(db: Db, u: UserId)
    requires Valid(db)
    ensures Valid(ClearProgress(db, u))
    ensures forall v :: Solved(ClearProgress(db, u), v) == if v == u then {} else Solved(db, v)
  {
    var db' := ClearProgress(db, u);
    forall v ensures Solved(db', v) == if v == u then {} else Solved(db, v) {
      if v != u {
        KeepSolved(db, db', v, {});
      }
    }
  }

  lemma DeleteUserEffect(db: Db, u: UserId)
    requires Valid(db) && u in db.users
    ensures forall v :: Solved(DeleteUser(db, u).db, v) == if v == u then {} else Solved(db, v)
  {
    ClearProgressEffect(db, u);
    assert DeleteUser(db, u).db.progress == ClearProgress(db, u).progress;
  }

  lemma NoAccountNoProgress(db: Db, u: UserId)
    requires Valid(db) && u !in db.users
    ensures Solved(db, u) == {}
  {
  }

  // ---------------------------------------------------------------------------
  // Placing levels

  /** One row holds all that was sent, the others are as they were. */
  ghost predicate LevelWritten(before: map<LevelId, Level>, after: map<LevelId, Level>, id: LevelId, input: Level) {
    && after.Keys == before.Keys + {id}
    && (forall l | l in before && l != id :: after[l] == before[l])
    && after[id].orderIndex == input.orderIndex && after[id].title == input.title
    && after[id].description == input.description && after[id].flag == input.flag
  }

  lemma CreateLevelWrites(db: Db, input: Level)
    requires Valid(db)
    ensures var r, id := CreateLevel(db, input), LevelId(db.levelSeq + 1);
      && id !in db.levels
      && r.db == db.(levels := r.db.levels, levelSeq := r.db.levelSeq)
      && (if forall l | l in db.levels :: db.levels[l].orderIndex != input.orderIndex
          then r.result == Ok(id) && r.db.levelSeq == id.n && LevelWritten(db.levels, r.db.levels, id, input)
          else r == Reply(db, Err(OrderIndexTaken)))
  {
    assert LevelIds(db.levels, db.levelSeq);
    hide Valid;
  }

  lemma CreateLevelEffect(db: Db, input: Level)
    requires Valid(db) && CreateLevel(db, input).result.Ok?
    ensures LevelId(db.levelSeq + 1) !in db.levels
    ensures Catalogue(CreateLevel(db, input).db) == Catalogue(db)[LevelId(db.levelSeq + 1) := input.orderIndex]
  {
  }

  lemma UpdateLevelEffect(db: Db, id: LevelId, input: Level)
    requires Valid(db) && UpdateLevel(db, id, input).result.Ok?
    ensures id in db.levels
    ensures Catalogue(UpdateLevel(db, id, input).db) == Catalogue(db)[id := input.orderIndex]
  {
  }

  // ---------------------------------------------------------------------------
  // Setting a player's progress

  lemma MarkSolvedFrame(db: Db, u: UserId, ids: seq<LevelId>)
    ensures MarkSolved(db, u, ids) == db.(progress := MarkSolved(db, u, ids).progress,
                                          progressSeq := db.progressSeq + |ids|)
  {
  }

  lemma {:induction false} MarkSolvedEffect(db: Db, u: UserId, ids: seq<LevelId>)
    requires Valid(db) && u in db.users && Solved(db, u) == {}
    requires forall i :: 0 <= i < |ids| ==> ids[i] in db.levels
    requires forall i, j :: 0 <= i < j < |ids| ==> ids[i] != ids[j]
    ensures Valid(MarkSolved(db, u, ids))
    ensures Solved(MarkSolved(db, u, ids), u) == set l | l in ids
    ensures forall v :: v != u ==> Solved(MarkSolved(db, u, ids), v) == Solved(db, v)
  {
    hide Valid;
    hide LevelsOf;
    if ids != [] {
      var init, l := ids[..|ids| - 1], ids[|ids| - 1];
      MarkSolvedEffect(db, u, init);
      MarkSolvedFrame(db, u, init);
      assert l !in init && l in db.levels;
      InsertSolved(MarkSolved(db, u, init), u, l);
      assert (set x | x in ids) == (set x | x in init) + {l} by {
        assert ids == init + [l];
      }
    }
  }

  lemma InsertSolved(db: Db, u: UserId, l: LevelId)
    requires Valid(db) && u in db.users && l in db.levels && l !in Solved(db, u)
    ensures Valid(InsertProgress(db, Progress(u, l)))
    ensures Solved(InsertProgress(db, Progress(u, l)), u) == Solved(db, u) + {l}
    ensures forall v :: v != u ==> Solved(InsertProgress(db, Progress(u, l)), v) == Solved(db, v)
  {
    SolvedMeans(db, u, l);
    RecordSolvedKeepsValid(db, u, l);
    InsertProgressEffect(db, Progress(u, l));
  }

  lemma LeadingFacts(levels: map<LevelId, Level>, n: int)
    requires UniqueOrder(levels)
    ensures forall i :: 0 <= i < |Leading(levels, n)| ==> Leading(levels, n)[i] in levels
    ensures forall i, j :: 0 <= i < j < |Leading(levels, n)| ==> Leading(levels, n)[i] != Leading(levels, n)[j]
    ensures (set l | l in Leading(levels, n)) == First(OrderOf(levels), n)
  {
    CatalogueInjective(levels);
    TakeFacts(OrderOf(levels), n);
    hide First;
    hide Injective;
    hide Sequence;
  }

  lemma SetProgressEffect(db: Db, u: UserId, level: int)
    requires Valid(db) && u in db.users
    ensures Valid(SetUserProgressToLevel(db, u, level).db)
    ensures Solved(SetUserProgressToLevel(db, u, level).db, u) == First(Catalogue(db), level - 1)
    ensures forall v :: v != u ==> Solved(SetUserProgressToLevel(db, u, level).db, v) == Solved(db, v)
  {
    LeadingFacts(db.levels, level - 1);
    ClearProgressEffect(db, u);
    MarkSolvedEffect(ClearProgress(db, u), u, Leading(db.levels, level - 1));
  }

  lemma SetProgressFrame(db: Db, u: UserId, level: int)
    requires Valid(db)
    ensures var r := SetUserProgressToLevel(db, u, level).db;
      r == db.(progress := r.progress, progressSeq := r.progressSeq)
  {
    if u in db.users {
      MarkSolvedFrame(ClearProgress(db, u), u, Leading(db.levels, level - 1));
    }
  }

  // ---------------------------------------------------------------------------
  // Tools

  lemma CreateToolWrites(db: Db, input: Tool)
    requires Valid(db)
    ensures var r, id := CreateTool(db, input), ToolId(db.toolSeq + 1);
      && id !in db.tools
      && (if input.unlocksAt.None? || input.unlocksAt.value in db.levels
          then r.result == Ok(id) && r.db == db.(tools := db.tools[id := input], toolSeq := id.n)
          else r == Reply(db, Err(InvalidReference)))
  {
    assert ToolIds(db.tools, db.toolSeq);
    hide Valid;
  }

  // ---------------------------------------------------------------------------
  // Accounts

  /** A name is refused iff an account has it. A new account gets an id nobody had,
      starts at level 1 as a player without sessions, and changes nobody else. */
  lemma CreateUserEffect(db: Db, username: string, hash: string, now: int)
    requires Valid(db)
    ensures var r, id := CreateUser(db, username, hash, now), UserId(db.userSeq + 1);
      && (r.result.Ok? <==> forall u | u in db.users :: db.users[u].username != username)
      && (r.result.Err? ==> r.db == db)
      && (r.result.Ok? ==>
            && id !in db.users && r.db.users.Keys == db.users.Keys + {id}
            && r.db.users[id].username == username && r.db.users[id].passwordHash == hash
            && CurrentLevel(r.db, id) == 1 && Admins(r.db) == Admins(db)
            && (forall t | t in r.db.sessions :: r.db.sessions[t].user != id)
            && (forall u | u in db.users :: r.db.users[u] == db.users[u])
            && (forall v :: Solved(r.db, v) == Solved(db, v)))
  {
    if CreateUser(db, username, hash, now).result.Ok? {
      var id := UserId(db.userSeq + 1);
      assert id !in db.users;
      assert RowsOf(db.progress, id) == {};
    }
    hide Valid;
    hide LevelsOf;
  }

  /** With an admin nothing happens; without one the account becomes the only admin,
      unless its name is taken. */
  lemma EnsureAdminEffect(db: Db, username: string, hash: string, now: int)
    requires Valid(db)
    ensures var r, id := EnsureAdmin(db, username, hash, now), UserId(db.userSeq + 1);
      if Admins(db) != {} then r == Reply(db, Ok(false))
      else if NameTaken(db, username) then r == Reply(db, Err(Failed))
      else
        && r.result == Ok(true) && id !in db.users && Admins(r.db) == {id}
        && r.db == db.(users := db.users[id := User(username, hash, "admin", now)], userSeq := id.n)
  {
    assert UserIds(db.users, db.userSeq);
    hide Valid;
    var r := EnsureAdmin(db, username, hash, now);
    if Admins(db) == {} && !NameTaken(db, username) {
      assert forall u :: u in Admins(r.db) <==> u in Admins(db) || u == UserId(db.userSeq + 1);
    }
  }

  /** The set of admins gains or loses that one account; names, passwords, progress
      and sessions stay. */
  lemma SetUserRoleEffect(db: Db, id: UserId, role: string)
    ensures var r := SetUserRole(db, id, role);
      && (r.result.Ok? <==> id in db.users)
      && (r.result.Err? ==> r.db == db)
      && (r.result.Ok? ==> Admins(r.db) == if role == ROLE_ADMIN then Admins(db) + {id} else Admins(db) - {id})
      && r.db == db.(users := r.db.users) && r.db.users.Keys == db.users.Keys
      && (forall u | u in db.users :: r.db.users[u].(role := db.users[u].role) == db.users[u])
  {
  }
}
