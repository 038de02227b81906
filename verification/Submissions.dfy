/** What a submission decides, whom it credits, and what a player can learn of flags. */
module Submissions {
  import opened Ranking
  import opened Schema
  import opened Operations
  import opened OperationFacts
  import opened Sessions
  import opened Seed
  import opened Progression
  import opened Toolkit
  import opened System
  import opened Runs

  /** The right answer to a level on the player's list. */
  ghost predicate Right(o: Oracles, db: Db, u: UserId, id: LevelId, answer: string)
    requires Valid(db)
  {
    && id in db.levels
    && Listed(AccessibleList(db, u), id)
    && o.lower(answer) == o.lower(db.levels[id].flag)
  }

  lemma ListedIffOpen(db: Db, u: UserId, id: LevelId)
    requires Valid(db)
    ensures Listed(AccessibleList(db, u), id) <==> id in db.levels && IsLevelAccessible(db, u, db.levels[id].orderIndex)
  {
    hide AccessibleList;
    hide Listed;
    hide IsLevelAccessible;
    hide Valid;
    GateIffListed(db, u, id);
  }

  /** A submission is answered iff the level is on the player's list, says "correct"
      iff the answer is right, and then credits that level to that player: no other
      solve appears and none is lost. */
  lemma SubmitVerdict(o: Oracles, db: Db, u: UserId, id: LevelId, answer: string)
    requires Valid(db) && u in db.users
    ensures var out := Submit(o, db, u, id, answer);
      && (out.response == NotFound404 <==> id !in db.levels)
      && (out.response.Answered? <==> Listed(AccessibleList(db, u), id))
      && (out.response.Answered? || out.response == NotFound404 || out.response == Forbidden403)
      && (out.response.Answered? ==> (out.response.correct <==> Right(o, db, u, id, answer)))
      && out.db == db.(progress := out.db.progress, progressSeq := out.db.progressSeq)
      && (forall v, l :: l in Solved(out.db, v)
            <==> l in Solved(db, v) || (v == u && l == id && Right(o, db, u, id, answer)))
  {
    hide AccessibleList;
    hide Listed;
    hide IsLevelAccessible;
    hide Valid;
    hide LevelsOf;
    ListedIffOpen(db, u, id);
    RecordSolvedEffect(db, u, id);
  }

  /** The level was added to u's solves; nobody else's changed. */
  ghost predicate Credited(db: Db, db': Db, u: UserId, id: LevelId) {
    forall v :: Solved(db', v) == if v == u then Solved(db, v) + {id} else Solved(db, v)
  }

  /** An answer is judged against the stored flag; only a correct one is stored. */
  ghost predicate Judges(o: Oracles, db: Db, db': Db, u: UserId, id: LevelId, answer: string, response: Response) {
    && (response.Answered? ==>
          id in db.levels && (response.correct <==> o.lower(answer) == o.lower(db.levels[id].flag)))
    && (if response == Answered(true) then Credited(db, db', u, id) else db' == db)
  }

  lemma AnswerEffect(o: Oracles, db: Db, u: UserId, id: LevelId, answer: string)
    requires Valid(db)
    ensures var out := Submit(o, db, u, id, answer); Judges(o, db, out.db, u, id, answer, out.response)
  {
    hide IsLevelAccessible;
    hide LevelsOf;
    hide Valid;
    RecordSolvedEffect(db, u, id);
  }

  lemma SubmitStep(o: Oracles, db: Db, token: string, clock: Clock, u: UserId, id: LevelId, answer: string)
    requires Valid(db) && Enters(db, token, clock, u)
    ensures var out := Step(o, db, Call(token, clock, SubmitFlag(id, answer)));
      && (out.response.Answered? <==> Listed(AccessibleList(db, u), id))
      && (out.response.Answered? ==> (out.response.correct <==> Right(o, db, u, id, answer)))
      && (forall v, l :: l in Solved(out.db, v)
            <==> l in Solved(db, v) || (v == u && l == id && Right(o, db, u, id, answer)))
  {
    hide AccessibleList;
    hide Listed;
    hide Valid;
    hide Submit;
    hide LevelsOf;
    AdmissionIff(db, token, clock);
    ServeShape(o, db, token, clock, SubmitFlag(id, answer));
    var db' := RequireLogin(db, token, clock).0;
    SameList(db, db', u);
    SubmitVerdict(o, db', u, id, answer);
  }

  lemma SameList(db: Db, db': Db, u: UserId)
    requires Valid(db) && Valid(db') && db' == db.(sessions := db'.sessions)
    ensures AccessibleList(db', u) == AccessibleList(db, u)
  {
    hide LevelsOf;
    hide Leading;
    assert UniqueOrder(db.levels) && UniqueOrder(db'.levels);
    hide Valid;
    assert Leading(db'.levels, CurrentLevel(db', u)) == Leading(db.levels, CurrentLevel(db, u));
    assert forall l :: ItemOf(db', u, l) == ItemOf(db, u, l);
  }

  // ---------------------------------------------------------------------------
  // Where solves come from

  /** The request is u's own submission of the right answer to l. */
  ghost predicate Earns(o: Oracles, db: Db, r: Request, u: UserId, l: LevelId)
    requires Valid(db)
  {
    && r.Call? && r.action.SubmitFlag? && r.action.level == l
    && Enters(db, r.token, r.clock, u)
    && Right(o, db, u, l, r.action.answer)
  }

  /** An admin set u's progress. */
  ghost predicate Grants(o: Oracles, db: Db, r: Request, u: UserId)
    requires Valid(db)
  {
    r.Call? && SetsProgress(r.action, Step(o, db, r).response, u)
  }

  lemma AdministerSolves(db: Db, actor: UserId, action: Action, u: UserId)
    requires Valid(db) && !action.SubmitFlag? && !SetsProgress(action, Administer(db, actor, action).response, u)
    ensures Solved(Administer(db, actor, action).db, u) <= Solved(db, u)
  {
    hide Valid;
    hide LevelsOf;
    if action.EditHints? {
      Hints.AddHintsFrame(ClearHints(db, action.id), action.id, action.texts);
    } else if action.UpdateUser? {
      UpdateAccountSolved(db, actor, action.user, action.role, action.target, u);
    } else if action.DropUser? && action.user in db.users {
      DeleteUserEffect(db, action.user);
    } else if action.DropLevel? && action.id in db.levels {
      DeleteLevelEffect(db, action.id);
    }
  }

  lemma StepSolves(o: Oracles, db: Db, r: Request, u: UserId, l: LevelId)
    requires Valid(db) && l in Solved(Step(o, db, r).db, u) && l !in Solved(db, u)
    ensures Earns(o, db, r, u, l) || Grants(o, db, r, u)
  {
    hide Valid;
    hide Administer;
    hide Submit;
    hide Right;
    hide LevelsOf;
    if r.Call? {
      AdmissionIff(db, r.token, r.clock);
      ServeShape(o, db, r.token, r.clock, r.action);
      var (db', a) := RequireLogin(db, r.token, r.clock);
      if a.Admitted? && r.action.SubmitFlag? {
        SubmitStep(o, db, r.token, r.clock, a.user, r.action.level, r.action.answer);
      } else if a.Admitted? && !r.action.Read? && a.role == ROLE_ADMIN {
        if !SetsProgress(r.action, Administer(db', a.user, r.action).response, u) {
          AdministerSolves(db', a.user, r.action, u);
        }
      }
    } else if r.Reseed? {
      if Loadable(r.seed) {
        LoadTheorem(db, r.seed);
        NoRowsNoSolves(Loaded(db, r.seed), u);
      }
    } else {
      NoCallFrame(o, db, r);
    }
  }

  lemma NoRowsNoSolves(db: Db, u: UserId)
    requires db.progress == map[]
    ensures Solved(db, u) == {}
  {
  }

  /** Over every run, whatever admins do meanwhile: a level newly solved by a player
      was solved by that player's own right answer while it was on the player's
      list, or by an admin setting the player's progress. */
  lemma {:induction false} EverySolveIsEarned(o: Oracles, db: Db, rs: seq<Request>, u: UserId, l: LevelId)
    requires Valid(db) && l in Solved(Run(o, db, rs), u) && l !in Solved(db, u)
    ensures exists k :: 0 <= k < |rs| && Credits(o, Run(o, db, rs[..k]), rs[k], u, l)
    decreases |rs|
  {
    hide Step;
    hide Earns;
    hide Grants;
    hide Valid;
    hide LevelsOf;
    var init := rs[..|rs| - 1];
    assert rs == init + [rs[|rs| - 1]];
    RunAppend(o, db, init, [rs[|rs| - 1]]);
    var before, last := Run(o, db, init), rs[|rs| - 1];
    RunOne(o, before, last);
    if l in Solved(before, u) {
      EverySolveIsEarned(o, db, init, u, l);
      var k :| 0 <= k < |init| && Credits(o, Run(o, db, init[..k]), init[k], u, l);
      assert rs[..k] == init[..k];
    } else {
      StepSolves(o, before, last, u, l);
      assert Credits(o, Run(o, db, rs[..|rs| - 1]), rs[|rs| - 1], u, l);
    }
  }

  ghost predicate Credits(o: Oracles, db: Db, r: Request, u: UserId, l: LevelId)
    requires Valid(db)
  {
    Earns(o, db, r, u, l) || Grants(o, db, r, u)
  }

  lemma RunOne(o: Oracles, db: Db, r: Request)
    requires Valid(db)
    ensures Run(o, db, [r]) == Step(o, db, r).db
  {
    hide Step;
    hide Valid;
    StepKeepsValid(o, db, r);
    assert [r][1..] == [];
  }

  // ---------------------------------------------------------------------------
  // Flags stay hidden

  /** The same database up to the flags of its levels. */
  ghost predicate SameButFlags(db: Db, db': Db) {
    && db' == db.(levels := db'.levels)
    && db'.levels.Keys == db.levels.Keys
    && forall l | l in db.levels :: db'.levels[l] == db.levels[l].(flag := db'.levels[l].flag)
  }

  lemma SameOrder(db: Db, db': Db)
    requires SameButFlags(db, db')
    ensures Catalogue(db') == Catalogue(db)
  {
  }

  lemma SameGate(db: Db, db': Db, u: UserId, orderIndex: int)
    requires SameButFlags(db, db')
    ensures IsLevelAccessible(db', u, orderIndex) == IsLevelAccessible(db, u, orderIndex)
  {
    SameOrder(db, db');
    hide OrderOf;
    hide Rank;
  }

  lemma HiddenInList(db: Db, db': Db, u: UserId)
    requires Valid(db) && Valid(db') && SameButFlags(db, db')
    ensures AccessibleList(db', u) == AccessibleList(db, u)
  {
    SameOrder(db, db');
    hide OrderOf;
    assert Leading(db'.levels, CurrentLevel(db', u)) == Leading(db.levels, CurrentLevel(db, u));
    assert forall l :: ItemOf(db', u, l) == ItemOf(db, u, l);
  }

  lemma HiddenOnPage(db: Db, db': Db, u: UserId, id: LevelId)
    requires SameButFlags(db, db')
    ensures GetLevel(db', u, id) == GetLevel(db, u, id) && Gate(db', u, id) == Gate(db, u, id)
  {
    hide IsLevelAccessible;
    hide LevelsOf;
    if id in db.levels {
      SameGate(db, db', u, db.levels[id].orderIndex);
    }
  }

  lemma HiddenOnToolkit(db: Db, db': Db, u: UserId)
    requires SameButFlags(db, db')
    ensures UnlockedTools(db', u) == UnlockedTools(db, u)
  {
    hide LevelsOf;
    hide Sequence;
    hide Injective;
    assert UnlockedIds(db', u) == UnlockedIds(db, u);
    hide UnlockedIds;
    assert forall t :: ItemOfTool(db', t) == ItemOfTool(db, t);
  }

  lemma HiddenInView(db: Db, db': Db, u: UserId, role: string, page: Page)
    requires SameButFlags(db, db')
    ensures View(db', u, role, page) == View(db, u, role, page)
  {
    hide Gate;
    hide Files.Open;
    hide IsToolFileUnlocked;
    if page.LevelPage? || page.HintsPage? || page.LevelFile? {
      HiddenOnPage(db, db', u, page.id);
    } else if page.ToolFile? {
      HiddenOnToolkit(db, db', u);
      ToolViewsAgree(db, u, page.path);
      ToolViewsAgree(db', u, page.path);
      hide UnlockedTools;
    }
  }

  lemma HiddenAnswer(o: Oracles, db: Db, db': Db, u: UserId, id: LevelId, answer: string)
    requires SameButFlags(db, db') && Gate(db, u, id) != Ok200
    ensures Submit(o, db', u, id, answer).response == Submit(o, db, u, id, answer).response
  {
    hide IsLevelAccessible;
    if id in db.levels {
      SameGate(db, db', u, db.levels[id].orderIndex);
    }
  }

  /** Nothing a player is shown depends on a flag, and a level that is not on the
      player's list answers every submission alike whatever its flag. */
  lemma FlagsStayHidden(o: Oracles, db: Db, db': Db, u: UserId, id: LevelId, role: string, page: Page, answer: string)
    requires Valid(db) && Valid(db') && SameButFlags(db, db')
    ensures AccessibleList(db', u) == AccessibleList(db, u)
    ensures GetLevel(db', u, id) == GetLevel(db, u, id)
    ensures UnlockedTools(db', u) == UnlockedTools(db, u)
    ensures View(db', u, role, page) == View(db, u, role, page)
    ensures !Listed(AccessibleList(db, u), id) ==>
              Submit(o, db', u, id, answer).response == Submit(o, db, u, id, answer).response
  {
    hide AccessibleList;
    hide Listed;
    hide GetLevel;
    hide UnlockedTools;
    hide View;
    hide Gate;
    hide Submit;
    hide Valid;
    hide SameButFlags;
    HiddenInList(db, db', u);
    HiddenOnPage(db, db', u, id);
    HiddenOnToolkit(db, db', u);
    HiddenInView(db, db', u, role, page);
    GateIffListed(db, u, id);
    if Gate(db, u, id) != Ok200 {
      HiddenAnswer(o, db, db', u, id, answer);
    }
  }
}
