/** The data-access layer. Each method runs its SQL statements one after the
    other over the tables, scanning where the engine scans. */
module Stores {
  import opened Sets
  import opened Ranking
  import opened Schema
  import opened Operations
  import opened OperationFacts
  import opened Hints
  import opened Sessions
  import opened Accounts
  import opened Progression
  import Toolkit

  /** ORDER BY: repeatedly take the largest remaining row. */
  method OrderBy<K(==, !new)>(ord: Order<K>) returns (s: seq<K>)
    ensures Listing(ord, s)
    ensures Injective(ord) ==> s == Sequence(ord)
  {
    hide Taken;
    hide Listing;
    hide IsLast;
    hide Sequence;
    s := [];
    var rest := ord;
    TakenStart(ord);
    while |rest| > 0
      invariant Taken(ord, rest, s)
      decreases |rest|
    {
      var m := LargestRow(rest);
      TakenStep(ord, rest, s, m);
      LastIsRow(rest, m);
      s, rest := [m] + s, Without(rest, m);
    }
    TakenAll(ord, rest, s);
    if Injective(ord) {
      ListingUnique(ord, s);
    }
  }

  method LargestRow<K(==, !new)>(ord: Order<K>) returns (m: K)
    requires |ord| > 0
    ensures IsLast(ord, m)
  {
    var rest := ord.Keys;
    ghost var w := Pick(rest);
    m :| m in rest;
    while rest != {}
      invariant rest <= ord.Keys && m in ord
      invariant forall x :: x in ord ==> x in rest || ord[x] <= ord[m]
      decreases |rest|
    {
      w := Pick(rest);
      var x :| x in rest;
      rest := rest - {x};
      if ord[m] < ord[x] {
        m := x;
      }
    }
  }

  class Store {
    var db: Db

    ghost predicate Valid()
      reads this
    {
      Schema.Valid(db)
    }

    constructor (db: Db)
      requires Schema.Valid(db)
      ensures this.db == db && Valid()
    {
      this.db := db;
    }

    // -------------------------------------------------------------------------
    // Progress

    /** Counts the progress rows of one account. */
    method CountSolved(userID: UserId) returns (solved: nat)
      requires Valid()
      ensures solved == |Solved(db, userID)|
      ensures solved + 1 == Schema.CurrentLevel(db, userID)
    {
      hide Schema.Valid;
      hide LevelsOf;
      solved := 0;
      var rest := db.progress.Keys;
      ghost var hits := RowsOf(db.progress, userID);
      ScanStart(hits, rest);
      CountIsSolved(db, userID);
      while rest != {}
        invariant rest <= db.progress.Keys
        invariant solved == |hits - rest|
        decreases |rest|
      {
        ghost var w := Pick(rest);
        var p :| p in rest;
        ScanStep(hits, rest, p);
        rest := rest - {p};
        if db.progress[p].user == userID {
          solved := solved + 1;
        }
      }
      ScanDone(hits);
    }

    method CurrentLevel(userID: UserId) returns (level: nat)
      requires Valid()
      ensures level == Schema.CurrentLevel(db, userID) == |Solved(db, userID)| + 1
    {
      var solved := CountSolved(userID);
      level := solved + 1;
    }

    /** Counts the levels at or below a position. */
    method CountRank(orderIndex: int) returns (rank: nat)
      ensures rank == Rank(Catalogue(db), orderIndex)
    {
      rank := 0;
      var rest := db.levels.Keys;
      ghost var hits := UpTo(Catalogue(db), orderIndex);
      ScanStart(hits, rest);
      while rest != {}
        invariant rest <= db.levels.Keys
        invariant rank == |hits - rest|
        decreases |rest|
      {
        ghost var w := Pick(rest);
        var l :| l in rest;
        ScanStep(hits, rest, l);
        rest := rest - {l};
        if db.levels[l].orderIndex <= orderIndex {
          rank := rank + 1;
        }
      }
      ScanDone(hits);
    }

    /** Of an existing level: whether it is among the first CurrentLevel levels. */
    method IsLevelAccessible(userID: UserId, orderIndex: int) returns (accessible: bool)
      requires Valid()
      ensures accessible <==> Progression.IsLevelAccessible(db, userID, orderIndex)
      ensures forall l | l in db.levels && db.levels[l].orderIndex == orderIndex ::
                accessible <==> Listed(AccessibleList(db, userID), l)
    {
      var current := CurrentLevel(userID);
      var rank := CountRank(orderIndex);
      accessible := rank <= current;
      ListAndGateAgree(db, userID);
    }

    method RecordSolved(userID: UserId, levelID: LevelId) returns (r: Result<()>)
      requires Valid()
      modifies this
      ensures Valid()
      ensures Reply(db, r) == Operations.RecordSolved(old(db), userID, levelID)
    {
      RecordSolvedKeepsValid(db, userID, levelID);
      if HasSolved(db, userID, levelID) {
        return Ok(());
      }
      if userID !in db.users || levelID !in db.levels {
        return Err(Failed);
      }
      db := InsertProgress(db, Progress(userID, levelID));
      return Ok(());
    }

    // -------------------------------------------------------------------------
    // Levels

    /** The rows a level joins with: at most one, by UNIQUE(user_id, level_id). */
    method MatchingRows(userID: UserId, levelID: LevelId) returns (rows: seq<ProgressId>)
      requires Valid()
      ensures |rows| == if levelID in Solved(db, userID) then 1 else 0
    {
      rows := [];
      var rest := db.progress.Keys;
      while rest != {}
        invariant rest <= db.progress.Keys && |rows| <= 1
        invariant |rows| == 1 ==> rows[0] in db.progress && rows[0] !in rest
                                  && db.progress[rows[0]] == Progress(userID, levelID)
        invariant |rows| == 0 ==> forall p | p in db.progress && p !in rest :: db.progress[p] != Progress(userID, levelID)
        decreases |rest|
      {
        ghost var w := Pick(rest);
        var p :| p in rest;
        rest := rest - {p};
        if db.progress[p] == Progress(userID, levelID) {
          rows := rows + [p];
        }
      }
      SolvedMeans(db, userID, levelID);
    }

    /** LEFT JOIN: one row per match, or one row without. */
    method JoinLevel(userID: UserId, l: LevelId) returns (joined: seq<LevelItem>)
      requires Valid() && l in db.levels
      ensures joined == [ItemOf(db, userID, l)]
    {
      var matches := MatchingRows(userID, l);
      if matches == [] {
        return [LevelItem(l, db.levels[l].title, false)];
      }
      joined := [];
      var j := 0;
      while j < |matches|
        invariant 0 <= j <= |matches|
        invariant |joined| == j && forall k :: 0 <= k < j ==> joined[k] == LevelItem(l, db.levels[l].title, true)
      {
        joined := joined + [LevelItem(l, db.levels[l].title, true)];
        j := j + 1;
      }
    }

    method JoinAll(userID: UserId, order: seq<LevelId>) returns (rows: seq<LevelItem>)
      requires Valid() && forall i :: 0 <= i < |order| ==> order[i] in db.levels
      ensures rows == ItemsOf(db, userID, order)
    {
      hide ItemOf;
      rows := [];
      var i := 0;
      while i < |order|
        invariant 0 <= i <= |order| && |rows| == i
        invariant forall k :: 0 <= k < i ==> rows[k] == ItemOf(db, userID, order[k])
      {
        var joined := JoinLevel(userID, order[i]);
        rows := rows + joined;
        i := i + 1;
      }
    }

    /** Join every level with its progress row, in order, and cut after the current level. */
    method ListAccessibleLevels(userID: UserId) returns (items: seq<LevelItem>)
      requires Valid()
      ensures items == AccessibleList(db, userID)
    {
      hide Sequence;
      hide LevelsOf;
      CatalogueInjective(db.levels);
      hide Schema.Valid;
      hide Injective;
      var current := CurrentLevel(userID);
      var order := OrderBy(OrderOf(db.levels));
      SortedMembers(OrderOf(db.levels), order);
      var rows := JoinAll(userID, order);
      items := if |rows| <= current then rows else rows[..current];
      TakeItems(db, userID, order, |items|);
    }

    /** The level as this player sees it, whatever the gate says of it. */
    method LevelByID(userID: UserId, levelID: LevelId) returns (r: Result<(LevelItem, Level)>)
      requires Valid()
      ensures r == if levelID in db.levels
                   then Ok((ItemOf(db, userID, levelID), db.levels[levelID])) else Err(NotFound)
    {
      if levelID !in db.levels {
        return Err(NotFound);
      }
      var joined := JoinLevel(userID, levelID);
      return Ok((joined[0], db.levels[levelID]));
    }

    method LevelForSubmit(levelID: LevelId) returns (r: Result<(int, string)>)
      ensures r == if levelID in db.levels
                   then Ok((db.levels[levelID].orderIndex, db.levels[levelID].flag)) else Err(NotFound)
    {
      if levelID !in db.levels {
        return Err(NotFound);
      }
      return Ok((db.levels[levelID].orderIndex, db.levels[levelID].flag));
    }

    method CreateLevel(input: Level) returns (r: Result<LevelId>)
      requires Valid()
      modifies this
      ensures Valid()
      ensures Reply(db, r) == Operations.CreateLevel(old(db), input)
      ensures r.Ok? <==> forall l | l in old(db.levels) :: old(db.levels)[l].orderIndex != input.orderIndex
      ensures r.Ok? ==> r.value !in old(db.levels) && LevelWritten(old(db.levels), db.levels, r.value, input)
    {
      CreateLevelKeepsValid(db, input);
      if OrderTaken(db, input.orderIndex, None) {
        return Err(OrderIndexTaken);
      }
      var id := LevelId(db.levelSeq + 1);
      db := db.(levels := db.levels[id := input], levelSeq := db.levelSeq + 1);
      return Ok(id);
    }

    method UpdateLevel(id: LevelId, input: Level) returns (r: Result<()>)
      requires Valid()
      modifies this
      ensures Valid()
      ensures Reply(db, r) == Operations.UpdateLevel(old(db), id, input)
      ensures r.Ok? <==> && id in old(db.levels)
                         && forall l | l in old(db.levels) && l != id :: old(db.levels)[l].orderIndex != input.orderIndex
      ensures r.Ok? ==> LevelWritten(old(db.levels), db.levels, id, input)
    {
      UpdateLevelKeepsValid(db, id, input);
      if id !in db.levels {
        return Err(NotFound);
      }
      if OrderTaken(db, input.orderIndex, Some(id)) {
        return Err(OrderIndexTaken);
      }
      db := db.(levels := db.levels[id := input]);
      return Ok(());
    }

    /** DELETE FROM levels: the hints and progress rows cascade, tools are untied. */
    method DeleteLevel(id: LevelId) returns (r: Result<()>)
      requires Valid()
      modifies this
      ensures Valid()
      ensures Reply(db, r) == Operations.DeleteLevel(old(db), id)
      ensures r.Ok? <==> id in old(db.levels)
      ensures r.Ok? ==> db.levels == old(db.levels) - {id}
      ensures forall t | t in old(db.tools) && old(db.tools)[t].unlocksAt != Some(id) ::
                t in db.tools && db.tools[t] == old(db.tools)[t]
      ensures forall h | h in old(db.hints) && old(db.hints)[h].level != id ::
                h in db.hints && db.hints[h] == old(db.hints)[h]
    {
      DeleteLevelKeepsValid(db, id);
      if id !in db.levels {
        return Err(NotFound);
      }
      db := db.(hints := map h | h in db.hints && db.hints[h].level != id :: db.hints[h]);
      db := db.(progress := map p | p in db.progress && db.progress[p].level != id :: db.progress[p]);
      db := db.(tools := map t | t in db.tools :: Unassign(db.tools[t], id));
      db := db.(levels := map l | l in db.levels && l != id :: db.levels[l]);
      return Ok(());
    }

    // -------------------------------------------------------------------------
    // Users

    method CreateUser(username: string, hash: string, now: int) returns (r: Result<UserId>)
      requires Valid()
      modifies this
      ensures Valid()
      ensures Reply(db, r) == Operations.CreateUser(old(db), username, hash, now)
    {
      CreateUserKeepsValid(db, username, hash, now);
      if NameTaken(db, username) {
        return Err(UsernameTaken);
      }
      db := InsertUser(db, User(username, hash, ROLE_PLAYER, now));
      return Ok(UserId(db.userSeq));
    }

    /** Counts the accounts with the admin role. */
    method CountAdmins() returns (n: nat)
      ensures n == |Admins(db)|
    {
      n := 0;
      var rest := db.users.Keys;
      ghost var hits := Admins(db);
      ScanStart(hits, rest);
      while rest != {}
        invariant rest <= db.users.Keys
        invariant n == |hits - rest|
        decreases |rest|
      {
        ghost var w := Pick(rest);
        var u :| u in rest;
        ScanStep(hits, rest, u);
        rest := rest - {u};
        if db.users[u].role == ROLE_ADMIN {
          n := n + 1;
        }
      }
      ScanDone(hits);
    }

    method EnsureAdmin(username: string, hash: string, now: int) returns (r: Result<bool>)
      requires Valid()
      modifies this
      ensures Valid()
      ensures Reply(db, r) == Operations.EnsureAdmin(old(db), username, hash, now)
      ensures r.Ok? ==> Admins(db) != {}
    {
      EnsureAdminKeepsValid(db, username, hash, now);
      var n := CountAdmins();
      if n > 0 {
        return Ok(false);
      }
      if NameTaken(db, username) {
        return Err(Failed);
      }
      db := InsertUser(db, User(username, hash, ROLE_ADMIN, now));
      assert UserId(db.userSeq) in Admins(db);
      return Ok(true);
    }

    method SetUserRole(id: UserId, role: string) returns (r: Result<()>)
      requires Valid()
      modifies this
      ensures Valid()
      ensures Reply(db, r) == Operations.SetUserRole(old(db), id, role)
    {
      SetUserRoleKeepsValid(db, id, role);
      if id !in db.users {
        return Err(NotFound);
      }
      db := db.(users := db.users[id := db.users[id].(role := role)]);
      return Ok(());
    }

    /** INSERT ... SELECT: one row per selected level. */
    static method InsertAll(start: Db, id: UserId, ids: seq<LevelId>) returns (tx: Db)
      ensures tx == MarkSolved(start, id, ids)
    {
      tx := start;
      var i := 0;
      while i < |ids|
        invariant 0 <= i <= |ids|
        invariant tx == MarkSolved(start, id, ids[..i])
      {
        assert ids[..i + 1][..i] == ids[..i];
        tx := InsertProgress(tx, Progress(id, ids[i]));
        i := i + 1;
      }
      assert ids[..i] == ids;
    }

    /** Sorts the levels by position and takes the first n. */
    method SelectLeading(n: int) returns (ids: seq<LevelId>)
      requires Valid() && n > 0
      ensures ids == Leading(db.levels, n)
    {
      CatalogueInjective(db.levels);
      var order := OrderBy(OrderOf(db.levels));
      ids := if |order| <= n then order else order[..n];
    }

    /** One transaction: look the account up, clear, insert. */
    method SetUserProgressToLevel(id: UserId, level: int) returns (r: Result<()>)
      requires Valid()
      modifies this
      ensures Valid()
      ensures Reply(db, r) == Operations.SetUserProgressToLevel(old(db), id, level)
    {
      if id !in db.users {
        return Err(NotFound);
      }
      SetProgressEffect(db, id, level);
      var tx := ClearProgress(db, id);
      var solved := level - 1;
      if solved > 0 {
        var ids := SelectLeading(solved);
        tx := InsertAll(tx, id, ids);
      }
      db := tx;
      return Ok(());
    }

    method UpdatePasswordHash(id: UserId, hash: string) returns (r: Result<()>)
      requires Valid()
      modifies this
      ensures Valid()
      ensures Reply(db, r) == Operations.UpdatePasswordHash(old(db), id, hash)
    {
      UpdatePasswordHashKeepsValid(db, id, hash);
      if id !in db.users {
        return Err(NotFound);
      }
      db := db.(users := db.users[id := db.users[id].(passwordHash := hash)]);
      return Ok(());
    }

    method DeleteUser(id: UserId) returns (r: Result<()>)
      requires Valid()
      modifies this
      ensures Valid()
      ensures Reply(db, r) == Operations.DeleteUser(old(db), id)
    {
      DeleteUserKeepsValid(db, id);
      if id !in db.users {
        return Err(NotFound);
      }
      db := db.(sessions := map t | t in db.sessions && db.sessions[t].user != id :: db.sessions[t]);
      db := db.(progress := map p | p in db.progress && db.progress[p].user != id :: db.progress[p]);
      db := db.(users := map u | u in db.users && u != id :: db.users[u]);
      return Ok(());
    }

    /** The correlated subquery counts this account's rows. */
    method AdminUserByID(id: UserId) returns (r: Result<AdminUser>)
      requires Valid()
      ensures r == if id in db.users then Ok(Account(db, id)) else Err(NotFound)
      ensures r.Ok? ==> r.value.id == id && Describes(db, r.value)
    {
      if id in db.users {
        AccountDescribes(db, id);
      }
      hide Describes;
      if id !in db.users {
        return Err(NotFound);
      }
      var solved := CountSolved(id);
      var u := db.users[id];
      return Ok(AdminUser(id, u.username, u.role, u.createdAt, solved + 1));
    }

    /** LEFT JOIN: an account without progress joins one row whose id is NULL. */
    method JoinProgress(id: UserId) returns (group: seq<Option<ProgressId>>)
      ensures RowsOf(db.progress, id) == {} ==> group == [None]
      ensures RowsOf(db.progress, id) != {} ==> |group| == |RowsOf(db.progress, id)|
      ensures RowsOf(db.progress, id) != {} ==> forall i :: 0 <= i < |group| ==> group[i].Some?
    {
      group := [];
      var rest := db.progress.Keys;
      ghost var hits := RowsOf(db.progress, id);
      ScanStart(hits, rest);
      while rest != {}
        invariant rest <= db.progress.Keys
        invariant |group| == |hits - rest|
        invariant forall i :: 0 <= i < |group| ==> group[i].Some?
        decreases |rest|
      {
        ghost var w := Pick(rest);
        var p :| p in rest;
        ScanStep(hits, rest, p);
        rest := rest - {p};
        if db.progress[p].user == id {
          group := group + [Some(p)];
        }
      }
      ScanDone(hits);
      if group == [] {
        group := [None];
      }
    }

    /** COUNT(column) skips NULL. */
    static method CountColumn<T>(group: seq<Option<T>>) returns (n: nat)
      ensures (forall i :: 0 <= i < |group| ==> group[i].Some?) ==> n == |group|
      ensures (forall i :: 0 <= i < |group| ==> group[i].None?) ==> n == 0
    {
      n := 0;
      var i := 0;
      while i < |group|
        invariant 0 <= i <= |group|
        invariant (forall k :: 0 <= k < |group| ==> group[k].Some?) ==> n == i
        invariant (forall k :: 0 <= k < |group| ==> group[k].None?) ==> n == 0
      {
        if group[i].Some? {
          n := n + 1;
        }
        i := i + 1;
      }
    }

    method GroupRow(id: UserId) returns (row: AdminUser)
      requires id in db.users
      ensures row == Account(db, id)
    {
      var group := JoinProgress(id);
      var n := CountColumn(group);
      var u := db.users[id];
      return AdminUser(id, u.username, u.role, u.createdAt, n + 1);
    }

    /** One group of joined rows per account, in id order. */
    method ListUsers() returns (list: seq<AdminUser>)
      requires Valid()
      ensures ListsEveryAccount(db, list)
    {
      UsersByIdInjective(db.users);
      var order := OrderBy(UsersById(db.users));
      hide Sequence;
      hide Injective;
      SortedMembers(UsersById(db.users), order);
      list := GroupAll(order);
      AccountsInIdOrder(db, order, list);
    }

    method GroupAll(order: seq<UserId>) returns (list: seq<AdminUser>)
      requires forall i :: 0 <= i < |order| ==> order[i] in db.users
      ensures |list| == |order| && forall i :: 0 <= i < |order| ==> list[i] == Account(db, order[i])
    {
      hide Account;
      list := [];
      var i := 0;
      while i < |order|
        invariant 0 <= i <= |order| && |list| == i
        invariant forall k :: 0 <= k < i ==> list[k] == Account(db, order[k])
      {
        var row := GroupRow(order[i]);
        list := list + [row];
        i := i + 1;
      }
    }

    // -------------------------------------------------------------------------
    // Tools

    /** The subquery collecting the levels one account has solved. */
    method SolvedLevels(userID: UserId) returns (solved: set<LevelId>)
      ensures solved == Solved(db, userID)
    {
      solved := {};
      var rest := db.progress.Keys;
      while rest != {}
        invariant rest <= db.progress.Keys
        invariant solved == set p | p in db.progress && p !in rest && db.progress[p].user == userID :: db.progress[p].level
        decreases |rest|
      {
        ghost var w := Pick(rest);
        var p :| p in rest;
        rest := rest - {p};
        if db.progress[p].user == userID {
          solved := solved + {db.progress[p].level};
        }
      }
    }

    method PickUnlocked(userID: UserId, order: seq<ToolId>) returns (ids: seq<ToolId>)
      requires forall i :: 0 <= i < |order| ==> order[i] in db.tools
      requires forall i, j :: 0 <= i < j < |order| ==> order[i].n < order[j].n
      ensures forall t :: t in ids <==> t in order && Toolkit.Unlocked(db, userID, t)
      ensures forall i, j :: 0 <= i < j < |ids| ==> ids[i].n < ids[j].n
    {
      var solved := SolvedLevels(userID);
      hide LevelsOf;
      ids := [];
      var i := 0;
      while i < |order|
        invariant 0 <= i <= |order|
        invariant forall t :: t in ids <==> t in order[..i] && Toolkit.Unlocked(db, userID, t)
        invariant forall k :: 0 <= k < |ids| ==> ids[k] in ids
        invariant forall j, k :: 0 <= j < k < |ids| ==> ids[j].n < ids[k].n
        invariant forall t, k :: t in ids && i <= k < |order| ==> t.n < order[k].n
      {
        var t := db.tools[order[i]];
        assert order[..i + 1] == order[..i] + [order[i]];
        if t.unlocksAt.None? || t.unlocksAt.value in solved {
          ids := ids + [order[i]];
        }
        i := i + 1;
      }
      assert order[..i] == order;
    }

    /** Tools tied to no level or to a solved one, in id order. */
    method UnlockedTools(userID: UserId) returns (items: seq<Toolkit.ToolItem>)
      ensures items == Toolkit.UnlockedTools(db, userID)
      ensures Toolkit.IsToolkit(db, userID, items)
    {
      Toolkit.UnlockedToolsAreToolkit(db, userID);
      hide Toolkit.IsToolkit;
      hide Sequence;
      Toolkit.ToolsByIdInjective(db.tools.Keys);
      var order := OrderBy(Toolkit.ToolsById(db.tools.Keys));
      Toolkit.ToolsInIdOrder(db.tools.Keys, order);
      hide Sorted;
      hide Injective;
      assert forall t :: t in order <==> t in db.tools by {
        SortedCovers(Toolkit.ToolsById(db.tools.Keys), order);
      }
      var ids := PickUnlocked(userID, order);
      Toolkit.PickedInOrder(db, userID, ids);
      items := ScanTools(ids);
    }

    method ScanTools(ids: seq<ToolId>) returns (items: seq<Toolkit.ToolItem>)
      ensures items == Toolkit.ToolItems(db, ids)
    {
      items := [];
      var i := 0;
      while i < |ids|
        invariant 0 <= i <= |ids| && |items| == i
        invariant forall k :: 0 <= k < i ==> items[k] == Toolkit.ItemOfTool(db, ids[k])
      {
        items := items + [Toolkit.ItemOfTool(db, ids[i])];
        i := i + 1;
      }
    }

    /** An existence query: stop at the first match. */
    method IsToolFileUnlocked(userID: UserId, path: string) returns (unlocked: bool)
      ensures unlocked <==> Toolkit.IsToolFileUnlocked(db, userID, path)
      ensures unlocked <==> exists i :: 0 <= i < |Toolkit.UnlockedTools(db, userID)|
                                     && Toolkit.UnlockedTools(db, userID)[i].content == path
    {
      Toolkit.ToolViewsAgree(db, userID, path);
      var solved := SolvedLevels(userID);
      var rest := db.tools.Keys;
      unlocked := false;
      while rest != {} && !unlocked
        invariant rest <= db.tools.Keys
        invariant unlocked ==> Toolkit.IsToolFileUnlocked(db, userID, path)
        invariant !unlocked ==> forall t | t in db.tools && t !in rest ::
                    !(db.tools[t].content == path && Toolkit.Unlocked(db, userID, t))
        decreases |rest|
      {
        ghost var w := Pick(rest);
        var t :| t in rest;
        rest := rest - {t};
        var row := db.tools[t];
        unlocked := row.content == path && (row.unlocksAt.None? || row.unlocksAt.value in solved);
      }
    }

    method CreateTool(input: Tool) returns (r: Result<ToolId>)
      requires Valid()
      modifies this
      ensures Valid()
      ensures Reply(db, r) == Operations.CreateTool(old(db), input)
    {
      CreateToolKeepsValid(db, input);
      if !LevelExists(db, input.unlocksAt) {
        return Err(InvalidReference);
      }
      db := InsertTool(db, input);
      return Ok(ToolId(db.toolSeq));
    }

    method UpdateTool(id: ToolId, input: Tool) returns (r: Result<()>)
      requires Valid()
      modifies this
      ensures Valid()
      ensures Reply(db, r) == Operations.UpdateTool(old(db), id, input)
    {
      UpdateToolKeepsValid(db, id, input);
      if id !in db.tools {
        return Err(NotFound);
      }
      if !LevelExists(db, input.unlocksAt) {
        return Err(InvalidReference);
      }
      db := db.(tools := db.tools[id := input]);
      return Ok(());
    }

    method DeleteTool(id: ToolId) returns (r: Result<()>)
      requires Valid()
      modifies this
      ensures Valid()
      ensures Reply(db, r) == Operations.DeleteTool(old(db), id)
    {
      DeleteToolKeepsValid(db, id);
      if id !in db.tools {
        return Err(NotFound);
      }
      db := db.(tools := map t | t in db.tools && t != id :: db.tools[t]);
      return Ok(());
    }

    // -------------------------------------------------------------------------
    // Hints

    /** The table does not keep numbers distinct; where they are, as after every
        write this server makes, the order is the only one possible. */
    method HintsForLevel(levelID: LevelId) returns (items: seq<HintItem>)
      ensures ListsHints(db.hints, levelID, items)
      ensures UniqueHintOrder(db.hints) ==> items == Hints.HintsForLevel(db, levelID)
    {
      hide Sequence;
      hide Injective;
      var ord := HintOrder(db.hints, levelID);
      var order := OrderBy(ord);
      assert forall i :: 0 <= i < |order| ==> order[i] in order;
      items := ScanHints(order);
      ItemsList(db.hints, levelID, order);
      if UniqueHintOrder(db.hints) {
        HintOrderInjective(db.hints, levelID);
      }
    }

    method ScanHints(ids: seq<HintId>) returns (items: seq<HintItem>)
      requires forall i :: 0 <= i < |ids| ==> ids[i] in db.hints
      ensures items == ItemsAt(db.hints, ids)
    {
      items := [];
      var i := 0;
      while i < |ids|
        invariant 0 <= i <= |ids| && |items| == i
        invariant forall k :: 0 <= k < i ==> items[k] == ItemAt(db.hints, ids[k])
      {
        items := items + [HintItem(ids[i], db.hints[ids[i]].text)];
        i := i + 1;
      }
    }

    /** One transaction: look the level up, clear, insert numbered from 1. */
    method ReplaceHints(levelID: LevelId, texts: seq<string>) returns (r: Result<()>)
      requires Valid()
      modifies this
      ensures Valid()
      ensures Reply(db, r) == Operations.ReplaceHints(old(db), levelID, texts)
    {
      if levelID !in db.levels {
        return Err(NotFound);
      }
      ReplaceHintsKeepsValid(db, levelID, texts);
      var tx := ClearHints(db, levelID);
      tx := InsertHints(tx, levelID, texts);
      db := tx;
      return Ok(());
    }

    static method InsertHints(start: Db, levelID: LevelId, texts: seq<string>) returns (tx: Db)
      ensures tx == AddHints(start, levelID, texts)
    {
      tx := start;
      var i := 0;
      while i < |texts|
        invariant 0 <= i <= |texts|
        invariant tx == AddHints(start, levelID, texts[..i])
      {
        assert texts[..i + 1][..i] == texts[..i];
        tx := InsertHint(tx, Hint(levelID, i + 1, texts[i]));
        i := i + 1;
      }
      assert texts[..i] == texts;
    }

    // -------------------------------------------------------------------------
    // Sessions

    method CreateSession(token: string, userID: UserId, expiresAt: int) returns (r: Result<()>)
      requires Valid()
      modifies this
      ensures Valid()
      ensures Reply(db, r) == Sessions.CreateSession(old(db), token, userID, expiresAt)
    {
      SessionOpsKeepValid(db, token, Session(userID, Truncate(expiresAt)), userID, 0);
      if token in db.sessions || userID !in db.users {
        return Err(Failed);
      }
      db := db.(sessions := db.sessions[token := Session(userID, Truncate(expiresAt))]);
      return Ok(());
    }

    method DeleteSession(token: string)
      requires Valid()
      modifies this
      ensures Valid()
      ensures db == Operations.DeleteSession(old(db), token)
    {
      SessionOpsKeepValid(db, token, Session(UserId(0), 0), UserId(0), 0);
      db := db.(sessions := map t | t in db.sessions && t != token :: db.sessions[t]);
    }

    method DeleteUserSessions(userID: UserId)
      requires Valid()
      modifies this
      ensures Valid()
      ensures db == Operations.DeleteUserSessions(old(db), userID)
    {
      SessionOpsKeepValid(db, "", Session(userID, 0), userID, 0);
      db := db.(sessions := map t | t in db.sessions && db.sessions[t].user != userID :: db.sessions[t]);
    }

    method RefreshSession(token: string, expiresAt: int)
      requires Valid()
      modifies this
      ensures Valid()
      ensures db == Sessions.RefreshSession(old(db), token, expiresAt)
    {
      SessionOpsKeepValid(db, token, Session(UserId(0), 0), UserId(0), Truncate(expiresAt));
      if token in db.sessions {
        var row := db.sessions[token];
        db := db.(sessions := db.sessions[token := row.(expiresAt := Truncate(expiresAt))]);
      }
    }

    /** The session joined with its account. */
    method SessionByToken(token: string) returns (r: Result<(Session, User)>)
      ensures r.Ok? <==> token in db.sessions && db.sessions[token].user in db.users
      ensures r.Ok? ==> r.value == (db.sessions[token], db.users[db.sessions[token].user])
      ensures r.Err? ==> r.error == NotFound
    {
      if token !in db.sessions || db.sessions[token].user !in db.users {
        return Err(NotFound);
      }
      return Ok((db.sessions[token], db.users[db.sessions[token].user]));
    }

    /** UNIQUE makes the account found the only one of that name. */
    method UserByUsername(username: string) returns (r: Result<UserId>)
      requires Valid()
      ensures r.Ok? ==> r.value in db.users && db.users[r.value].username == username
      ensures r.Ok? ==> forall u | u in db.users && db.users[u].username == username :: u == r.value
      ensures r.Err? ==> r.error == NotFound && forall u | u in db.users :: db.users[u].username != username
    {
      var rest := db.users.Keys;
      while rest != {}
        invariant rest <= db.users.Keys
        invariant forall u | u in db.users && u !in rest :: db.users[u].username != username
        decreases |rest|
      {
        ghost var w := Pick(rest);
        var u :| u in rest;
        if db.users[u].username == username {
          return Ok(u);
        }
        rest := rest - {u};
      }
      return Err(NotFound);
    }
  }
}
