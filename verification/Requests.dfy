/** What each request achieves, as accounts and players can observe it. */
module Requests {
  import opened Ranking
  import opened Schema
  import opened Operations
  import opened OperationFacts
  import opened Hints
  import opened Sessions
  import opened Progression
  import opened Toolkit
  import opened System
  import opened Runs
  import opened Submissions

  // ---------------------------------------------------------------------------
  // Who gets through

  /** An account's token that enters reaches the action itself; admission may have
      renewed that token and did nothing else. */
  lemma Entered(o: Oracles, db: Db, token: string, clock: Clock, u: UserId, action: Action)
    requires Valid(db) && Enters(db, token, clock, u)
    ensures var db' := RequireLogin(db, token, clock).0;
      && Valid(db') && db' == db.(sessions := db'.sessions) && Renewed(db.sessions, db'.sessions, token)
      && Step(o, db, Call(token, clock, action)) == Perform(o, db', u, db.users[u].role, action)
  {
    hide Valid;
    hide Perform;
    AdmissionIff(db, token, clock);
    ServeShape(o, db, token, clock, action);
  }

  lemma EnteredAdmin(o: Oracles, db: Db, token: string, clock: Clock, u: UserId, action: Action)
    requires Valid(db) && Enters(db, token, clock, u) && u in Admins(db) && !action.Read? && !action.SubmitFlag?
    ensures var db' := RequireLogin(db, token, clock).0;
      && Valid(db') && db' == db.(sessions := db'.sessions) && Renewed(db.sessions, db'.sessions, token)
      && Step(o, db, Call(token, clock, action)) == Administer(db', u, action)
      && Valid(Step(o, db, Call(token, clock, action)).db)
  {
    hide Valid;
    hide Administer;
    hide RequireLogin;
    Entered(o, db, token, clock, u, action);
    StepKeepsValid(o, db, Call(token, clock, action));
    hide Step;
  }

  /** A token that enters as nobody gets 401; nothing is left changed but that a
      token that has run out is gone. */
  lemma Outsiders(o: Oracles, db: Db, token: string, clock: Clock, action: Action)
    requires Valid(db) && forall u :: !Enters(db, token, clock, u)
    ensures var out := Step(o, db, Call(token, clock, action));
      && (out.response == Unauthorized401 || out.response == Expired401)
      && out.db == db.(sessions := out.db.sessions)
      && out.db.sessions.Keys <= db.sessions.Keys && db.sessions.Keys - {token} <= out.db.sessions.Keys
      && forall t | t in out.db.sessions :: out.db.sessions[t].user == db.sessions[t].user
  {
    hide Valid;
    hide Perform;
    AdmissionIff(db, token, clock);
    ServeShape(o, db, token, clock, action);
    hide RequireLogin;
    hide Step;
  }

  /** Without the admin role every admin action is refused. */
  lemma PlayersOnly(o: Oracles, db: Db, token: string, clock: Clock, u: UserId, action: Action)
    requires Valid(db) && Enters(db, token, clock, u) && u !in Admins(db) && !action.Read? && !action.SubmitFlag?
    ensures var out := Step(o, db, Call(token, clock, action));
      && out.response == Forbidden403
      && out.db == db.(sessions := out.db.sessions) && Renewed(db.sessions, out.db.sessions, token)
  {
    hide Valid;
    hide RequireLogin;
    hide Renewed;
    Entered(o, db, token, clock, u, action);
    hide Step;
  }

  /** Tool files open for exactly the contents of the reader's toolkit, admin pages
      for admins. */
  ghost predicate AnswersPage(db: Db, u: UserId, page: Page, response: Response) {
    match page
    case ToolFile(base, path) =>
      && (response == Forbidden403 <==> !OnToolkit(db, u, path))
      && (response == Ok200 <==> OnToolkit(db, u, path) && Files.Open(base, path).Opened?)
    case AdminList => response == if u in Admins(db) then Ok200 else Forbidden403
    case AdminHints(id) =>
      response == if u !in Admins(db) then Forbidden403 else if id in db.levels then Ok200 else NotFound404
    case Own => response == Ok200
    case LevelPage(id) => response == Gate(db, u, id)
    case HintsPage(id) => response == Gate(db, u, id)
    case LevelFile(id, base, path) => response == Ok200 <==> Gate(db, u, id) == Ok200 && Files.Open(base, path).Opened?
  }

  ghost predicate OnToolkit(db: Db, u: UserId, path: string) {
    exists i :: 0 <= i < |UnlockedTools(db, u)| && UnlockedTools(db, u)[i].content == path
  }

  lemma OnToolkitIff(db: Db, u: UserId, path: string)
    ensures OnToolkit(db, u, path) <==> IsToolFileUnlocked(db, u, path)
  {
    ToolViewsAgree(db, u, path);
    hide UnlockedTools;
    hide IsToolFileUnlocked;
  }

  lemma ViewAnswers(db: Db, u: UserId, page: Page)
    requires u in db.users
    ensures AnswersPage(db, u, page, View(db, u, db.users[u].role, page))
  {
    hide Gate;
    hide Files.Open;
    hide OnToolkit;
    hide IsToolFileUnlocked;
    if page.ToolFile? {
      OnToolkitIff(db, u, page.path);
    }
  }

  lemma SamePages(db: Db, db': Db, u: UserId, page: Page, response: Response)
    requires db' == db.(sessions := db'.sessions)
    ensures AnswersPage(db', u, page, response) == AnswersPage(db, u, page, response)
  {
    hide Files.Open;
    hide Gate;
    hide OnToolkit;
    if page.ToolFile? {
      SameToolFiles(db, db', u, page.path);
    } else if page.LevelPage? || page.HintsPage? || page.LevelFile? {
      SameGates(db, db', u, page.id);
    }
  }

  lemma SameToolFiles(db: Db, db': Db, u: UserId, path: string)
    requires db' == db.(sessions := db'.sessions)
    ensures OnToolkit(db', u, path) == OnToolkit(db, u, path)
  {
    SameToolkit(db, db', u);
    hide UnlockedTools;
  }

  lemma SameGates(db: Db, db': Db, u: UserId, id: LevelId)
    requires db' == db.(sessions := db'.sessions)
    ensures Gate(db', u, id) == Gate(db, u, id)
  {
    hide Rank;
    hide OrderOf;
  }

  /** Reads change nothing but the reader's own expiry, and are answered by the
      reader's role, list and toolkit. */
  lemma ReadStep(o: Oracles, db: Db, token: string, clock: Clock, u: UserId, page: Page)
    requires Valid(db) && Enters(db, token, clock, u)
    ensures var out := Step(o, db, Call(token, clock, Read(page)));
      && out.db == db.(sessions := out.db.sessions) && Renewed(db.sessions, out.db.sessions, token)
      && AnswersPage(db, u, page, out.response)
  {
    hide Valid;
    hide RequireLogin;
    hide Renewed;
    hide View;
    hide AnswersPage;
    Entered(o, db, token, clock, u, Read(page));
    hide Step;
    var db' := RequireLogin(db, token, clock).0;
    ViewAnswers(db', u, page);
    SamePages(db, db', u, page, View(db', u, db.users[u].role, page));
  }

  lemma SameToolkit(db: Db, db': Db, u: UserId)
    requires db' == db.(sessions := db'.sessions)
    ensures UnlockedTools(db', u) == UnlockedTools(db, u)
  {
    hide LevelsOf;
    hide Sequence;
    hide Injective;
    assert UnlockedIds(db', u) == UnlockedIds(db, u);
    hide UnlockedIds;
    assert forall t :: ItemOfTool(db', t) == ItemOfTool(db, t);
  }

  // ---------------------------------------------------------------------------
  // Levels

  /** The level as written: its place, what its page shows to whoever may open it,
      and which answers to it are right. */
  ghost predicate Shows(o: Oracles, db: Db, id: LevelId, orderIndex: int, title: string, description: string, flag: string)
    requires Valid(db)
  {
    && id in db.levels && Catalogue(db)[id] == orderIndex
    && (forall u :: GetLevel(db, u, id)
          == if Listed(AccessibleList(db, u), id) then Detail(id, title, description, id in Solved(db, u)) else Locked)
    && (forall u, answer :: Right(o, db, u, id, answer)
          <==> Listed(AccessibleList(db, u), id) && o.lower(answer) == o.lower(flag))
  }

  lemma RowShows(o: Oracles, db: Db, id: LevelId)
    requires Valid(db) && id in db.levels
    ensures var l := db.levels[id]; Shows(o, db, id, l.orderIndex, l.title, l.description, l.flag)
  {
    hide AccessibleList;
    hide Listed;
    hide Progression.IsLevelAccessible;
    hide Valid;
    hide LevelsOf;
    forall u
      ensures Listed(AccessibleList(db, u), id) <==> Progression.IsLevelAccessible(db, u, db.levels[id].orderIndex)
    {
      ListedIffOpen(db, u, id);
    }
  }

  predicate Free(levels: map<LevelId, Level>, orderIndex: int, except: set<LevelId>) {
    forall l | l in levels && l !in except :: levels[l].orderIndex != orderIndex
  }

  /** Creating a level succeeds iff its position is positive and free; then it shows
      what was sent, and nothing else changes. */
  lemma NewLevelStep(o: Oracles, db: Db, token: string, clock: Clock, u: UserId, input: Level)
    requires Valid(db) && Enters(db, token, clock, u) && u in Admins(db)
    ensures var out, id := Step(o, db, Call(token, clock, NewLevel(input))), LevelId(db.levelSeq + 1);
      && Valid(out.db) && Renewed(db.sessions, out.db.sessions, token)
      && out.db == db.(sessions := out.db.sessions, levels := out.db.levels, levelSeq := out.db.levelSeq)
      && out.response == (if input.orderIndex <= 0 then BadRequest400
                          else if !Free(db.levels, input.orderIndex, {}) then Conflict409 else Created201)
      && (out.response != Created201 ==> out.db.levels == db.levels && out.db.levelSeq == db.levelSeq)
      && (out.response == Created201 ==>
            && id !in db.levels && out.db.levelSeq == id.n && LevelWritten(db.levels, out.db.levels, id, input)
            && Shows(o, out.db, id, input.orderIndex, input.title, input.description, input.flag))
  {
    hide Valid;
    hide RequireLogin;
    hide Renewed;
    hide Shows;
    hide CreateLevel;
    EnteredAdmin(o, db, token, clock, u, NewLevel(input));
    CreateLevelWrites(RequireLogin(db, token, clock).0, input);
    var out := Step(o, db, Call(token, clock, NewLevel(input)));
    hide Step;
    if out.response == Created201 {
      RowShows(o, out.db, LevelId(db.levelSeq + 1));
    }
  }

  /** Editing a level succeeds iff it exists and no other level holds the position;
      then it shows what was sent, and nothing else changes. */
  lemma EditLevelStep(o: Oracles, db: Db, token: string, clock: Clock, u: UserId, id: LevelId, input: Level)
    requires Valid(db) && Enters(db, token, clock, u) && u in Admins(db)
    ensures var out := Step(o, db, Call(token, clock, EditLevel(id, input)));
      && Valid(out.db) && Renewed(db.sessions, out.db.sessions, token)
      && out.db == db.(sessions := out.db.sessions, levels := out.db.levels)
      && out.response == (if input.orderIndex <= 0 then BadRequest400
                          else if id !in db.levels then NotFound404
                          else if !Free(db.levels, input.orderIndex, {id}) then Conflict409 else Ok200)
      && (out.response != Ok200 ==> out.db.levels == db.levels)
      && (out.response == Ok200 ==>
            && out.db.levels.Keys == db.levels.Keys
            && (forall l | l in db.levels && l != id :: out.db.levels[l] == db.levels[l])
            && Shows(o, out.db, id, input.orderIndex, input.title, input.description, input.flag))
  {
    hide Valid;
    hide RequireLogin;
    hide Renewed;
    hide Shows;
    EnteredAdmin(o, db, token, clock, u, EditLevel(id, input));
    var out := Step(o, db, Call(token, clock, EditLevel(id, input)));
    hide Step;
    if out.response == Ok200 {
      RowShows(o, out.db, id);
    }
  }

  /** Deleting a level takes its solves and its hints, gives every player the tools
      that named it, and leaves all other levels, hints, tools and solves alone. */
  lemma DeleteLevelSpares(db: Db, id: LevelId)
    requires Valid(db) && id in db.levels
    ensures var db' := DeleteLevel(db, id).db;
      && Valid(db')
      && db' == db.(levels := db'.levels, hints := db'.hints, tools := db'.tools, progress := db'.progress)
      && db'.levels.Keys == db.levels.Keys - {id} && (forall l | l in db'.levels :: db'.levels[l] == db.levels[l])
      && (forall v :: Solved(db', v) == Solved(db, v) - {id})
      && (forall l :: HintsForLevel(db', l) == if l == id then [] else HintsForLevel(db, l))
      && db'.tools.Keys == db.tools.Keys
      && (forall t | t in db.tools :: db'.tools[t]
            == if db.tools[t].unlocksAt == Some(id) then db.tools[t].(unlocksAt := None) else db.tools[t])
      && (forall v, t | t in db.tools ::
            t in UnlockedIds(db', v) <==> t in UnlockedIds(db, v) || db.tools[t].unlocksAt == Some(id))
  {
    var db' := DeleteLevel(db, id).db;
    DeleteLevelKeepsValid(db, id);
    DeleteLevelEffect(db, id);
    DeletedHints(db, id);
    hide Valid;
    hide LevelsOf;
    hide HintsForLevel;
  }

  lemma DeletedHints(db: Db, id: LevelId)
    requires Valid(db) && id in db.levels && Valid(DeleteLevel(db, id).db)
    ensures forall l :: HintsForLevel(DeleteLevel(db, id).db, l) == if l == id then [] else HintsForLevel(db, l)
  {
    var db' := DeleteLevel(db, id).db;
    forall l ensures HintsForLevel(db', l) == if l == id then [] else HintsForLevel(db, l) {
      if l == id {
        NoHints(db', l);
      } else {
        SameHintsRead(db, db', l);
      }
    }
  }

  lemma NoHints(db: Db, l: LevelId)
    requires UniqueHintOrder(db.hints) && Bare(db.hints, l)
    ensures HintsForLevel(db, l) == []
  {
    assert HintOrder(db.hints, l) == map[];
    HintOrderInjective(db.hints, l);
  }

  lemma DropLevelStep(o: Oracles, db: Db, token: string, clock: Clock, u: UserId, id: LevelId)
    requires Valid(db) && Enters(db, token, clock, u) && u in Admins(db)
    ensures var out := Step(o, db, Call(token, clock, DropLevel(id)));
      && Valid(out.db) && Renewed(db.sessions, out.db.sessions, token)
      && out.response == (if id in db.levels then NoContent204 else NotFound404)
      && (id !in db.levels ==> out.db == db.(sessions := out.db.sessions))
      && (id in db.levels ==>
            && out.db == db.(sessions := out.db.sessions, levels := out.db.levels, hints := out.db.hints,
                             tools := out.db.tools, progress := out.db.progress)
            && out.db.levels.Keys == db.levels.Keys - {id}
            && (forall l | l in out.db.levels :: out.db.levels[l] == db.levels[l])
            && (forall v :: Solved(out.db, v) == Solved(db, v) - {id})
            && (forall l :: HintsForLevel(out.db, l) == if l == id then [] else HintsForLevel(db, l))
            && (forall t | t in db.tools && db.tools[t].unlocksAt != Some(id) ::
                  t in out.db.tools && out.db.tools[t] == db.tools[t])
            && (forall v, t :: t in UnlockedIds(out.db, v)
                  <==> t in UnlockedIds(db, v) || (t in db.tools && db.tools[t].unlocksAt == Some(id))))
  {
    hide Valid;
    hide RequireLogin;
    hide Renewed;
    hide LevelsOf;
    hide DeleteLevel;
    EnteredAdmin(o, db, token, clock, u, DropLevel(id));
    hide Step;
    var db' := RequireLogin(db, token, clock).0;
    if id in db.levels {
      DeleteLevelSpares(db', id);
      DeleteLevelAnswers(db', id);
      SameReads(db, db');
      hide HintsForLevel;
    } else {
      DeleteLevelAnswers(db', id);
    }
  }

  lemma DeleteLevelAnswers(db: Db, id: LevelId)
    ensures DeleteLevel(db, id).result == if id in db.levels then Ok(()) else Err(NotFound)
    ensures id !in db.levels ==> DeleteLevel(db, id).db == db
  {
  }

  /** Sessions decide nothing about toolkits and hints. */
  lemma SameReads(db: Db, db': Db)
    requires Valid(db) && Valid(db') && db' == db.(sessions := db'.sessions)
    ensures forall v :: UnlockedIds(db', v) == UnlockedIds(db, v)
    ensures forall l :: HintsForLevel(db', l) == HintsForLevel(db, l)
  {
    hide LevelsOf;
  }

  /** Replacing hints: the level's hints are the texts in order, numbered from 1. */
  lemma EditHintsStep(o: Oracles, db: Db, token: string, clock: Clock, u: UserId, id: LevelId, texts: seq<string>)
    requires Valid(db) && Enters(db, token, clock, u) && u in Admins(db)
    ensures var out := Step(o, db, Call(token, clock, EditHints(id, texts)));
      && Valid(out.db) && Renewed(db.sessions, out.db.sessions, token)
      && out.response == (if id in db.levels then Ok200 else NotFound404)
      && out.db == db.(sessions := out.db.sessions, hints := out.db.hints, hintSeq := out.db.hintSeq)
      && (id in db.levels ==> Texts(HintsForLevel(out.db, id)) == texts && NumberedFromOne(out.db.hints, id, texts))
      && (forall l | l != id || id !in db.levels :: HintsForLevel(out.db, l) == HintsForLevel(db, l))
  {
    hide Valid;
    hide RequireLogin;
    hide Renewed;
    EnteredAdmin(o, db, token, clock, u, EditHints(id, texts));
    hide Step;
    var db' := RequireLogin(db, token, clock).0;
    ReplaceThenRead(db', id, texts);
    AddHintsFrame(ClearHints(db', id), id, texts);
    SameReads(db, db');
    hide HintsForLevel;
    hide NumberedFromOne;
    hide Texts;
    hide AddHints;
  }

  // ---------------------------------------------------------------------------
  // Tools

  /** The tool as written: its item, and the players it is unlocked for. */
  ghost predicate ShowsTool(db: Db, id: ToolId, tool: Tool) {
    && id in db.tools
    && ItemOfTool(db, id) == ToolItem(id, tool.kind, tool.title, tool.description, tool.content)
    && (forall v :: id in UnlockedIds(db, v) <==> tool.unlocksAt.None? || tool.unlocksAt.value in Solved(db, v))
  }

  lemma ToolShows(db: Db, id: ToolId)
    requires id in db.tools
    ensures ShowsTool(db, id, db.tools[id])
  {
    hide LevelsOf;
  }

  /** Creating a tool succeeds iff it names no level or an existing one; then it shows
      what was sent, and nothing else changes. */
  lemma NewToolStep(o: Oracles, db: Db, token: string, clock: Clock, u: UserId, tool: Tool)
    requires Valid(db) && Enters(db, token, clock, u) && u in Admins(db)
    ensures var out, id := Step(o, db, Call(token, clock, NewTool(tool))), ToolId(db.toolSeq + 1);
      && Valid(out.db) && Renewed(db.sessions, out.db.sessions, token)
      && out.db == db.(sessions := out.db.sessions, tools := out.db.tools, toolSeq := out.db.toolSeq)
      && out.response == (if tool.unlocksAt.None? || tool.unlocksAt.value in db.levels then Created201 else BadRequest400)
      && (out.response != Created201 ==> out.db.tools == db.tools && out.db.toolSeq == db.toolSeq)
      && (out.response == Created201 ==>
            && id !in db.tools && out.db.tools.Keys == db.tools.Keys + {id} && out.db.toolSeq == id.n
            && (forall t | t in db.tools :: out.db.tools[t] == db.tools[t])
            && ShowsTool(out.db, id, tool))
  {
    hide Valid;
    hide RequireLogin;
    hide Renewed;
    hide ShowsTool;
    hide CreateTool;
    EnteredAdmin(o, db, token, clock, u, NewTool(tool));
    CreateToolWrites(RequireLogin(db, token, clock).0, tool);
    var out := Step(o, db, Call(token, clock, NewTool(tool)));
    hide Step;
    if out.response == Created201 {
      ToolShows(out.db, ToolId(db.toolSeq + 1));
    }
  }

  /** Editing a tool succeeds iff it exists and names no level or an existing one; then
      it shows what was sent, and nothing else changes. */
  lemma EditToolStep(o: Oracles, db: Db, token: string, clock: Clock, u: UserId, id: ToolId, tool: Tool)
    requires Valid(db) && Enters(db, token, clock, u) && u in Admins(db)
    ensures var out := Step(o, db, Call(token, clock, EditTool(id, tool)));
      && Valid(out.db) && Renewed(db.sessions, out.db.sessions, token)
      && out.db == db.(sessions := out.db.sessions, tools := out.db.tools)
      && out.response == (if id !in db.tools then NotFound404
                          else if tool.unlocksAt.None? || tool.unlocksAt.value in db.levels then Ok200 else BadRequest400)
      && (out.response != Ok200 ==> out.db.tools == db.tools)
      && (out.response == Ok200 ==>
            && out.db.tools.Keys == db.tools.Keys
            && (forall t | t in db.tools && t != id :: out.db.tools[t] == db.tools[t])
            && ShowsTool(out.db, id, tool))
  {
    hide Valid;
    hide RequireLogin;
    hide Renewed;
    hide ShowsTool;
    EnteredAdmin(o, db, token, clock, u, EditTool(id, tool));
    var out := Step(o, db, Call(token, clock, EditTool(id, tool)));
    hide Step;
    if out.response == Ok200 {
      ToolShows(out.db, id);
    }
  }

  lemma DropToolStep(o: Oracles, db: Db, token: string, clock: Clock, u: UserId, id: ToolId)
    requires Valid(db) && Enters(db, token, clock, u) && u in Admins(db)
    ensures var out := Step(o, db, Call(token, clock, DropTool(id)));
      && Valid(out.db) && Renewed(db.sessions, out.db.sessions, token)
      && out.db == db.(sessions := out.db.sessions, tools := out.db.tools)
      && out.response == (if id in db.tools then NoContent204 else NotFound404)
      && out.db.tools.Keys == db.tools.Keys - {id}
      && (forall t | t in out.db.tools :: out.db.tools[t] == db.tools[t])
      && (forall v :: UnlockedIds(out.db, v) == UnlockedIds(db, v) - {id})
  {
    hide Valid;
    hide RequireLogin;
    hide Renewed;
    hide LevelsOf;
    EnteredAdmin(o, db, token, clock, u, DropTool(id));
    hide Step;
  }
}
