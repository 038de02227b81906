/** Submissions cut at their separate SQL statements, any number in flight at
    once, mixed with whole requests that leave the catalogue's order alone. */
module Interleaving {
  import opened Sets
  import opened Ranking
  import opened Schema
  import opened Operations
  import opened OperationFacts
  import opened Hints
  import opened Sessions
  import opened Seed
  import opened Progression
  import opened System
  import opened Runs
  import opened SessionRuns
  import opened Submissions

  /** Where one submission request stands between two statements, with what it
      has read so far. */
  datatype Task =
    | Arrived(token: string, level: LevelId, answer: string)
    | SessionRead(token: string, user: UserId, expiresAt: int, level: LevelId, answer: string)
    | Expiring(token: string)
    | Renewing(token: string, user: UserId, newExpiry: int, level: LevelId, answer: string)
    | LoggedIn(user: UserId, level: LevelId, answer: string)
    | LevelRead(user: UserId, level: LevelId, answer: string, orderIndex: int, flag: string)
    | Counted(user: UserId, level: LevelId, answer: string, orderIndex: int, flag: string, current: nat)
    | Passed(user: UserId, level: LevelId, answer: string, flag: string, correct: bool)
    | Finished(response: Response)

  datatype World = World(db: Db, tasks: seq<Task>)

  /** One statement, or one purely local decision, of one submission. */
  function Advance(o: Oracles, db: Db, k: Task, clock: Clock): (Db, Task) {
    match k
    case Arrived(token, level, answer) =>
      // SessionByToken: one join
      if token == "" || token !in db.sessions || db.sessions[token].user !in db.users
      then (db, Finished(Unauthorized401))
      else (db, SessionRead(token, db.sessions[token].user, db.sessions[token].expiresAt, level, answer))
    case SessionRead(token, user, expiresAt, level, answer) =>
      // the clock
      if clock.check > expiresAt then (db, Expiring(token))
      else if NeedsRefresh(expiresAt, clock)
      then (db, Renewing(token, user, clock.renew + SESSION_TTL, level, answer))
      else (db, LoggedIn(user, level, answer))
    case Expiring(token) =>
      (DeleteSession(db, token), Finished(Expired401))
    case Renewing(token, user, newExpiry, level, answer) =>
      (RefreshSession(db, token, newExpiry), LoggedIn(user, level, answer))
    case LoggedIn(user, level, answer) =>
      // LevelForSubmit
      if level !in db.levels then (db, Finished(NotFound404))
      else (db, LevelRead(user, level, answer, db.levels[level].orderIndex, db.levels[level].flag))
    case LevelRead(user, level, answer, orderIndex, flag) =>
      // COUNT solved
      (db, Counted(user, level, answer, orderIndex, flag, CurrentLevel(db, user)))
    case Counted(user, level, answer, orderIndex, flag, current) =>
      // COUNT rank
      if Rank(Catalogue(db), orderIndex) <= current
      then (db, Passed(user, level, answer, flag, o.lower(answer) == o.lower(flag)))
      else (db, Finished(Forbidden403))
    case Passed(user, level, _, _, correct) =>
      // INSERT OR IGNORE
      if !correct then (db, Finished(Answered(false)))
      else
        var out := Written(RecordSolved(db, user, level), Answered(true));
        (out.db, Finished(out.response))
    case Finished(_) => (db, k)
  }

  /** Statements left at most. */
  function Stage(k: Task): nat {
    match k
    case Arrived(_, _, _) => 7
    case SessionRead(_, _, _, _, _) => 6
    case Renewing(_, _, _, _, _) => 5
    case LoggedIn(_, _, _) => 4
    case LevelRead(_, _, _, _, _) => 3
    case Counted(_, _, _, _, _, _) => 2
    case Passed(_, _, _, _, _) => 1
    case Expiring(_) => 1
    case Finished(_) => 0
  }

  lemma AdvanceEnds(o: Oracles, db: Db, k: Task, clock: Clock)
    ensures !k.Finished? ==> Stage(Advance(o, db, k, clock).1) < Stage(k)
  {
    hide Rank;
  }

  /** A submission run to its end with nothing in between. */
  function Alone(o: Oracles, db: Db, k: Task, clock: Clock): (Db, Task)
    decreases Stage(k)
  {
    if k.Finished? then (db, k)
    else
      AdvanceEnds(o, db, k, clock);
      var (db', k') := Advance(o, db, k, clock);
      Alone(o, db', k', clock)
  }

  lemma AloneSubmits(o: Oracles, db: Db, u: UserId, level: LevelId, answer: string, clock: Clock)
    ensures var out := Submit(o, db, u, level, answer);
      Alone(o, db, LoggedIn(u, level, answer), clock) == (out.db, Finished(out.response))
  {
    hide Rank;
    hide RecordSolved;
    if level in db.levels {
      var read := Advance(o, db, LoggedIn(u, level, answer), clock).1;
      var counted := Advance(o, db, read, clock).1;
      assert Alone(o, db, LoggedIn(u, level, answer), clock) == Alone(o, db, counted, clock);
      var passed := Advance(o, db, counted, clock).1;
      assert Alone(o, db, counted, clock) == Alone(o, db, passed, clock);
    }
  }

  lemma AloneAdmits(o: Oracles, db: Db, token: string, level: LevelId, answer: string, clock: Clock)
    ensures var (db', a) := RequireLogin(db, token, clock);
      Alone(o, db, Arrived(token, level, answer), clock)
      == match a
         case Unknown => (db', Finished(Unauthorized401))
         case Expired => (db', Finished(Expired401))
         case Admitted(u, _) => Alone(o, db', LoggedIn(u, level, answer), clock)
  {
    var read := Advance(o, db, Arrived(token, level, answer), clock).1;
    var next := Advance(o, db, read, clock).1;
    assert Alone(o, db, Arrived(token, level, answer), clock) == Alone(o, db, read, clock);
    if read.SessionRead? {
      var (db', last) := Advance(o, db, next, clock);
      assert Alone(o, db, read, clock) == Alone(o, db, next, clock) == Alone(o, db', last, clock);
    }
  }

  /** The statements of one submission, run without interruption, are one whole
      request: same final database, same response. */
  lemma AloneIsWhole(o: Oracles, db: Db, token: string, level: LevelId, answer: string, clock: Clock)
    requires Valid(db)
    ensures var out := Step(o, db, Call(token, clock, SubmitFlag(level, answer)));
      Alone(o, db, Arrived(token, level, answer), clock) == (out.db, Finished(out.response))
  {
    hide Valid;
    hide Submit;
    AloneAdmits(o, db, token, level, answer, clock);
    var (db', a) := RequireLogin(db, token, clock);
    if a.Admitted? {
      AloneSubmits(o, db', a.user, level, answer, clock);
    }
  }

  datatype Event =
    | Arrive(token: string, level: LevelId, answer: string)
    | Proceed(i: nat, clock: Clock)
    | Whole(request: Request)

  ghost function Next(o: Oracles, w: World, e: Event): World
    requires Valid(w.db)
  {
    match e
    case Arrive(token, level, answer) => w.(tasks := w.tasks + [Arrived(token, level, answer)])
    case Proceed(i, clock) =>
      if i >= |w.tasks| then w
      else
        var (db', k') := Advance(o, w.db, w.tasks[i], clock);
        World(db', w.tasks[i := k'])
    case Whole(r) => w.(db := Step(o, w.db, r).db)
  }

  lemma AdvanceKeepsValid(o: Oracles, db: Db, k: Task, clock: Clock)
    requires Valid(db)
    ensures Valid(Advance(o, db, k, clock).0)
  {
    hide Valid;
    match k
    case Expiring(token) => SessionOpsKeepValid(db, token, Session(UserId(0), 0), UserId(0), 0);
    case Renewing(token, user, newExpiry, _, _) =>
      SessionOpsKeepValid(db, token, Session(user, 0), user, Truncate(newExpiry));
    case Passed(user, level, _, _, _) => RecordSolvedKeepsValid(db, user, level);
    case _ =>
  }

  lemma NextKeepsValid(o: Oracles, w: World, e: Event)
    requires Valid(w.db)
    ensures Valid(Next(o, w, e).db)
  {
    hide Valid;
    hide Advance;
    hide Step;
    match e
    case Arrive(_, _, _) =>
    case Proceed(i, clock) => if i < |w.tasks| { AdvanceKeepsValid(o, w.db, w.tasks[i], clock); }
    case Whole(r) => StepKeepsValid(o, w.db, r);
  }

  ghost function Play(o: Oracles, w: World, es: seq<Event>): (r: World)
    requires Valid(w.db)
    ensures Valid(r.db)
    decreases |es|
  {
    if es == [] then w
    else
      NextKeepsValid(o, w, es[0]);
      Play(o, Next(o, w, es[0]), es[1..])
  }

  // ---------------------------------------------------------------------------
  // Quiet events

  /** The catalogue keeps its order and nobody's progress is rewritten. Players may
      come and go, and everything else may be edited. */
  ghost predicate Quiet(o: Oracles, w: World, e: Event)
    requires Valid(w.db)
  {
    e.Whole? ==>
      && Catalogue(Step(o, w.db, e.request).db) == Catalogue(w.db)
      && !e.request.Reseed?
      && !(e.request.Call? && e.request.action.UpdateUser? && e.request.action.target.Some?)
  }

  ghost predicate QuietRun(o: Oracles, w: World, es: seq<Event>)
    requires Valid(w.db)
    decreases |es|
  {
    if es == [] then true
    else
      NextKeepsValid(o, w, es[0]);
      Quiet(o, w, es[0]) && QuietRun(o, Next(o, w, es[0]), es[1..])
  }

  /** What a quiet event leaves alone. */
  ghost predicate Settled(db: Db, db': Db) {
    && Catalogue(db') == Catalogue(db)
    && db.userSeq <= db'.userSeq
    && (forall u :: u in db'.users ==> u in db.users || db.userSeq < u.n)
    && (forall u :: u in db'.users ==> Solved(db, u) <= Solved(db', u))
  }

  lemma DropLevelUnsettles(db: Db, id: LevelId)
    requires Catalogue(DeleteLevel(db, id).db) == Catalogue(db)
    ensures DeleteLevel(db, id).db == db
  {
    assert id !in Catalogue(DeleteLevel(db, id).db);
    assert id in db.levels ==> id in Catalogue(db);
  }

  lemma AdministerSettles(db: Db, actor: UserId, action: Action)
    requires Valid(db) && !action.SubmitFlag? && !(action.UpdateUser? && action.target.Some?)
    requires Catalogue(Administer(db, actor, action).db) == Catalogue(db)
    ensures var db' := Administer(db, actor, action).db;
      forall u :: u in db'.users ==> Solved(db, u) <= Solved(db', u)
  {
    hide Valid;
    if action.DropUser? {
      if action.user in db.users {
        DeleteUserEffect(db, action.user);
      }
    } else if action.DropLevel? {
      DropLevelUnsettles(db, action.id);
    } else if action.EditHints? {
      AddHintsFrame(ClearHints(db, action.id), action.id, action.texts);
    }
  }

  lemma WholeSettles(o: Oracles, db: Db, r: Request)
    requires Valid(db) && Quiet(o, World(db, []), Whole(r))
    ensures Settled(db, Step(o, db, r).db)
  {
    hide Administer;
    hide Valid;
    var out := Step(o, db, r).db;
    StepUsers(o, db, r);
    if r.Call? {
      ServeShape(o, db, r.token, r.clock, r.action);
      var (db', a) := RequireLogin(db, r.token, r.clock);
      if a.Admitted? && r.action.SubmitFlag? {
        RecordSolvedEffect(db', a.user, r.action.level);
      } else if a.Admitted? && !r.action.Read? && a.role == ROLE_ADMIN {
        AdministerSettles(db', a.user, r.action);
      }
    } else {
      NoCallFrame(o, db, r);
    }
  }

  lemma StepUsers(o: Oracles, db: Db, r: Request)
    requires Valid(db)
    ensures db.userSeq <= Step(o, db, r).db.userSeq
    ensures forall u :: u in Step(o, db, r).db.users ==> u in db.users || db.userSeq < u.n
  {
    hide Serve;
    hide Valid;
    if r.Call? {
      ServeUsers(o, db, r.token, r.clock, r.action);
    } else if r.Reseed? && Loadable(r.seed) {
      LoadTheorem(db, r.seed);
    }
  }

  // ---------------------------------------------------------------------------
  // What every submission in flight has read still counts

  /** The account was created before, so if it goes it never comes back; what was
      counted for it is not above what would be counted now; and a level that
      passed the gate would pass it now. */
  ghost predicate Sound(db: Db, k: Task) {
    match k
    case Arrived(_, _, _) => true
    case SessionRead(_, user, _, _, _) => user.n <= db.userSeq
    case Expiring(_) => true
    case Renewing(_, user, _, _, _) => user.n <= db.userSeq
    case LoggedIn(user, _, _) => user.n <= db.userSeq
    case LevelRead(user, level, _, orderIndex, _) =>
      user.n <= db.userSeq && level in Catalogue(db) && Catalogue(db)[level] == orderIndex
    case Counted(user, level, _, orderIndex, _, current) =>
      && user.n <= db.userSeq && level in Catalogue(db) && Catalogue(db)[level] == orderIndex
      && (user in db.users ==> current <= CurrentLevel(db, user))
    case Passed(user, level, _, _, _) =>
      && user.n <= db.userSeq && level in Catalogue(db)
      && (user in db.users ==> level in Accessible(db, user))
    case Finished(_) => true
  }

  ghost predicate AllSound(w: World) {
    forall i :: 0 <= i < |w.tasks| ==> Sound(w.db, w.tasks[i])
  }

  lemma SolvedGrowsCurrent(db: Db, db': Db, u: UserId)
    requires Valid(db) && Valid(db') && Catalogue(db') == Catalogue(db) && Solved(db, u) <= Solved(db', u)
    ensures CurrentLevel(db, u) <= CurrentLevel(db', u)
    ensures Accessible(db, u) <= Accessible(db', u)
  {
    hide First;
    Standing(db, u);
    Standing(db', u);
    SubsetSize(Solved(db, u), Solved(db', u));
    FirstMonotone(Catalogue(db), CurrentLevel(db, u), CurrentLevel(db', u));
  }

  lemma SoundStays(db: Db, db': Db, k: Task)
    requires Valid(db) && Valid(db') && Settled(db, db') && Sound(db, k)
    ensures Sound(db', k)
  {
    hide Valid;
    hide CurrentLevel;
    hide Accessible;
    if (k.Counted? || k.Passed?) && k.user in db'.users {
      SolvedGrowsCurrent(db, db', k.user);
    }
  }

  lemma AdvanceSettles(o: Oracles, db: Db, k: Task, clock: Clock)
    requires Valid(db)
    ensures Settled(db, Advance(o, db, k, clock).0)
  {
    hide Valid;
    hide LevelsOf;
    if k.Passed? && k.correct {
      RecordSolvedEffect(db, k.user, k.level);
    }
  }

  lemma AdvanceSound(o: Oracles, db: Db, k: Task, clock: Clock)
    requires Valid(db) && Sound(db, k)
    ensures Sound(Advance(o, db, k, clock).0, Advance(o, db, k, clock).1)
  {
    if k.Counted? && Rank(Catalogue(db), k.orderIndex) <= k.current {
      GatePasses(db, k);
    }
  }

  lemma GatePasses(db: Db, k: Task)
    requires k.Counted? && Sound(db, k) && Rank(Catalogue(db), k.orderIndex) <= k.current
    ensures k.user in db.users ==> k.level in Accessible(db, k.user)
  {
  }

  lemma NextSound(o: Oracles, w: World, e: Event)
    requires Valid(w.db) && AllSound(w) && Quiet(o, w, e)
    ensures Settled(w.db, Next(o, w, e).db)
    ensures AllSound(Next(o, w, e))
  {
    hide Valid;
    hide Sound;
    hide Advance;
    hide Step;
    hide Settled;
    NextKeepsValid(o, w, e);
    var w' := Next(o, w, e);
    match e
    case Arrive(token, level, answer) =>
      SettledSame(w.db);
      ArrivedSound(w.db, token, level, answer);
    case Proceed(i, clock) =>
      SettledSame(w.db);
      if i < |w.tasks| {
        AdvanceSettles(o, w.db, w.tasks[i], clock);
        AdvanceSound(o, w.db, w.tasks[i], clock);
        forall j | 0 <= j < |w.tasks| && j != i ensures Sound(w'.db, w.tasks[j]) {
          SoundStays(w.db, w'.db, w.tasks[j]);
        }
      }
    case Whole(r) =>
      WholeSettles(o, w.db, r);
      forall j | 0 <= j < |w.tasks| ensures Sound(w'.db, w.tasks[j]) {
        SoundStays(w.db, w'.db, w.tasks[j]);
      }
  }

  lemma SettledSame(db: Db)
    ensures Settled(db, db)
  {
  }

  lemma ArrivedSound(db: Db, token: string, level: LevelId, answer: string)
    ensures Sound(db, Arrived(token, level, answer))
  {
  }

  lemma {:induction false} PlaySound(o: Oracles, w: World, es: seq<Event>)
    requires Valid(w.db) && AllSound(w) && QuietRun(o, w, es)
    ensures AllSound(Play(o, w, es))
    decreases |es|
  {
    hide AllSound;
    hide Next;
    hide Quiet;
    if es != [] {
      NextKeepsValid(o, w, es[0]);
      NextSound(o, w, es[0]);
      PlaySound(o, Next(o, w, es[0]), es[1..]);
    }
  }

  // ---------------------------------------------------------------------------
  // Safety of every schedule

  /** However submissions interleave, the statement that stores a solve either
      fails and changes nothing, or stores a level that the player may open at that
      very moment; it then adds that one level to that one player, and raises the
      player's current level by one if the level was new and not at all otherwise. */
  lemma CommitsAreAccessible(o: Oracles, w: World, es: seq<Event>, i: nat, clock: Clock)
    requires Valid(w.db) && AllSound(w) && QuietRun(o, w, es)
    requires i < |Play(o, w, es).tasks| && Play(o, w, es).tasks[i].Passed? && Play(o, w, es).tasks[i].correct
    ensures var at := Play(o, w, es);
      var u, l, db' := at.tasks[i].user, at.tasks[i].level, Next(o, at, Proceed(i, clock)).db;
      || (db' == at.db && u !in at.db.users)
      || (&& l in Accessible(at.db, u)
          && (forall v :: Solved(db', v) == if v == u then Solved(at.db, v) + {l} else Solved(at.db, v))
          && CurrentLevel(db', u) == CurrentLevel(at.db, u) + (if l in Solved(at.db, u) then 0 else 1))
  {
    PlaySound(o, w, es);
    var at := Play(o, w, es);
    assert Sound(at.db, at.tasks[i]);
    CommitEffect(o, at.db, at.tasks[i], clock);
  }

  lemma CommitEffect(o: Oracles, db: Db, k: Task, clock: Clock)
    requires Valid(db) && k.Passed? && k.correct && Sound(db, k)
    ensures var db' := Advance(o, db, k, clock).0;
      || (db' == db && k.user !in db.users)
      || (&& k.level in Accessible(db, k.user)
          && (forall v :: Solved(db', v) == if v == k.user then Solved(db, v) + {k.level} else Solved(db, v))
          && CurrentLevel(db', k.user) == CurrentLevel(db, k.user) + (if k.level in Solved(db, k.user) then 0 else 1))
  {
    hide Accessible;
    var db' := Advance(o, db, k, clock).0;
    assert k.level in db.levels;
    RecordSolvedEffect(db, k.user, k.level);
    AdvanceKeepsValid(o, db, k, clock);
    CountIsSolved(db, k.user);
    CountIsSolved(db', k.user);
    hide Valid;
    hide CurrentLevel;
    if k.user in db.users && k.level in Solved(db, k.user) {
      assert Solved(db', k.user) == Solved(db, k.user);
    }
  }

  lemma AdvanceGap(o: Oracles, db: Db, k: Task, clock: Clock, v: UserId)
    requires Valid(db) && Sound(db, k)
    ensures GapOf(Advance(o, db, k, clock).0, v) <= GapOf(db, v)
  {
    hide GapOf;
    var db' := Advance(o, db, k, clock).0;
    if k.Passed? && k.correct {
      if k.user in db.users {
        SolveKeepsGap(db, k.user, k.level, v);
      } else {
        RecordSolvedEffect(db, k.user, k.level);
      }
    } else {
      SameGap(db, db', v);
    }
  }

  lemma WholeGap(o: Oracles, db: Db, r: Request, v: UserId)
    requires Valid(db) && Quiet(o, World(db, []), Whole(r))
    ensures GapOf(Step(o, db, r).db, v) <= GapOf(db, v)
  {
    hide GapOf;
    hide Valid;
    hide Resets;
    StepGap(o, db, r, v);
    if Placements(o, db, r) == 1 {
      PlacementChangesCatalogue(o, db, r);
    }
  }

  lemma PlacementChangesCatalogue(o: Oracles, db: Db, r: Request)
    requires Valid(db) && Placements(o, db, r) == 1
    ensures Catalogue(Step(o, db, r).db) != Catalogue(db)
  {
    ServeShape(o, db, r.token, r.clock, r.action);
    var (db', a) := RequireLogin(db, r.token, r.clock);
    if r.action.NewLevel? {
      CreateLevelEffect(db', r.action.input);
      assert LevelId(db'.levelSeq + 1) !in Catalogue(db');
    } else {
      UpdateLevelEffect(db', r.action.id, r.action.input);
      assert Catalogue(db)[r.action.id] != r.action.input.orderIndex;
      assert Catalogue(Step(o, db, r).db)[r.action.id] == r.action.input.orderIndex;
    }
  }

  /** No schedule of submissions ever widens a gap: a prefix stays a prefix. */
  lemma {:induction false} PrefixesStayPrefixes(o: Oracles, w: World, es: seq<Event>, v: UserId)
    requires Valid(w.db) && AllSound(w) && QuietRun(o, w, es)
    ensures GapOf(Play(o, w, es).db, v) <= GapOf(w.db, v)
    decreases |es|
  {
    if es != [] {
      NextKeepsValid(o, w, es[0]);
      NextSound(o, w, es[0]);
      NextGap(o, w, es[0], v);
      hide AllSound;
      hide Next;
      hide Quiet;
      hide GapOf;
      PrefixesStayPrefixes(o, Next(o, w, es[0]), es[1..], v);
    }
  }

  lemma NextGap(o: Oracles, w: World, e: Event, v: UserId)
    requires Valid(w.db) && AllSound(w) && Quiet(o, w, e)
    ensures GapOf(Next(o, w, e).db, v) <= GapOf(w.db, v)
  {
    hide GapOf;
    hide Valid;
    hide Advance;
    hide Step;
    if e.Proceed? && e.i < |w.tasks| {
      AdvanceGap(o, w.db, w.tasks[e.i], e.clock, v);
    } else if e.Whole? {
      WholeGap(o, w.db, e.request, v);
    }
  }

  lemma {:induction false} PlaySettles(o: Oracles, w: World, es: seq<Event>)
    requires Valid(w.db) && AllSound(w) && QuietRun(o, w, es)
    ensures Settled(w.db, Play(o, w, es).db)
    decreases |es|
  {
    if es == [] {
      SettledSame(w.db);
    } else {
      hide AllSound;
      hide Next;
      hide Quiet;
      hide Settled;
      var w1 := Next(o, w, es[0]);
      NextKeepsValid(o, w, es[0]);
      NextSound(o, w, es[0]);
      PlaySettles(o, w1, es[1..]);
      SettledChain(w.db, w1.db, Play(o, w1, es[1..]).db);
    }
  }

  lemma SettledChain(a: Db, b: Db, c: Db)
    requires Valid(a) && Settled(a, b) && Settled(b, c)
    ensures Settled(a, c)
  {
    forall u | u in c.users ensures Solved(a, u) <= Solved(c, u) {
      if u !in b.users {
        NoAccountNoProgress(a, u);
      }
    }
  }

  /** Over a whole schedule a remaining player keeps every solved level, and the
      current level rises by exactly the number of distinct levels newly solved. */
  lemma CurrentRisesPerNewLevel(o: Oracles, w: World, es: seq<Event>, u: UserId)
    requires Valid(w.db) && AllSound(w) && QuietRun(o, w, es)
    requires u in Play(o, w, es).db.users
    ensures var db' := Play(o, w, es).db;
      && Solved(w.db, u) <= Solved(db', u)
      && CurrentLevel(db', u) == CurrentLevel(w.db, u) + |Solved(db', u) - Solved(w.db, u)|
  {
    PlaySettles(o, w, es);
    var db' := Play(o, w, es).db;
    CountIsSolved(w.db, u);
    CountIsSolved(db', u);
    DifferenceSize(Solved(w.db, u), Solved(db', u));
  }

  /** Even with requests cut at their statements, a refresh that was on its way
      when its token was removed does not bring the token back. */
  lemma {:induction false} NoRevival(o: Oracles, w: World, es: seq<Event>, t: string)
    requires Valid(w.db) && t !in w.db.sessions
    requires forall i :: 0 <= i < |es| ==>
      !(es[i].Whole? && es[i].request.Login? && es[i].request.token == t)
    ensures t !in Play(o, w, es).db.sessions
    decreases |es|
  {
    hide Next;
    if es != [] {
      NextKeepsValid(o, w, es[0]);
      NextNoRevival(o, w, es[0], t);
      NoRevival(o, Next(o, w, es[0]), es[1..], t);
    }
  }

  lemma NextNoRevival(o: Oracles, w: World, e: Event, t: string)
    requires Valid(w.db) && t !in w.db.sessions
    requires !(e.Whole? && e.request.Login? && e.request.token == t)
    ensures t !in Next(o, w, e).db.sessions
  {
    hide Step;
    hide Valid;
    if e.Whole? {
      RemovedStep(o, w.db, e.request, t);
    }
  }

  // ---------------------------------------------------------------------------
  // Verdicts and credits of every schedule

  /** What a submission in flight asked for, while it is remembered. */
  function Asked(k: Task): Option<(LevelId, string)> {
    match k
    case Arrived(_, level, answer) => Some((level, answer))
    case SessionRead(_, _, _, level, answer) => Some((level, answer))
    case Renewing(_, _, _, level, answer) => Some((level, answer))
    case LoggedIn(_, level, answer) => Some((level, answer))
    case LevelRead(_, level, answer, _, _) => Some((level, answer))
    case Counted(_, level, answer, _, _, _) => Some((level, answer))
    case Passed(_, level, answer, _, _) => Some((level, answer))
    case Expiring(_) => None
    case Finished(_) => None
  }

  /** The level and the flag a submission in flight has read. */
  function FlagRead(k: Task): Option<(LevelId, string)> {
    match k
    case LevelRead(_, level, _, _, flag) => Some((level, flag))
    case Counted(_, level, _, _, flag, _) => Some((level, flag))
    case Passed(_, level, _, flag, _) => Some((level, flag))
    case _ => None
  }

  predicate Sent(e: Event, asked: (LevelId, string)) {
    e.Arrive? && (e.level, e.answer) == asked
  }

  predicate Had(db: Db, flag: (LevelId, string)) {
    flag.0 in db.levels && db.levels[flag.0].flag == flag.1
  }

  predicate Judged(o: Oracles, k: Task) {
    k.Passed? ==> (k.correct <==> o.lower(k.answer) == o.lower(k.flag))
  }

  /** The submission asks what was sent, judges by a flag its level had at some moment, and
      judges rightly. */
  ghost predicate Traced(o: Oracles, w: World, es: seq<Event>, k: Task)
    requires Valid(w.db)
  {
    && (Asked(k).Some? ==> exists j :: 0 <= j < |es| && Sent(es[j], Asked(k).value))
    && (FlagRead(k).Some? ==> exists j :: 0 <= j <= |es| && Had(Play(o, w, es[..j]).db, FlagRead(k).value))
    && Judged(o, k)
  }

  lemma {:induction false} PlayAppend(o: Oracles, w: World, es: seq<Event>, fs: seq<Event>)
    requires Valid(w.db)
    ensures Play(o, w, es + fs) == Play(o, Play(o, w, es), fs)
    decreases |es|
  {
    hide Next;
    hide Valid;
    if es == [] {
      assert es + fs == fs;
    } else {
      NextKeepsValid(o, w, es[0]);
      PlayAppend(o, Next(o, w, es[0]), es[1..], fs);
      assert (es + fs)[0] == es[0] && (es + fs)[1..] == es[1..] + fs;
    }
  }

  lemma PlayLast(o: Oracles, w: World, es: seq<Event>)
    requires Valid(w.db) && es != []
    ensures Play(o, w, es) == Next(o, Play(o, w, es[..|es| - 1]), es[|es| - 1])
  {
    hide Next;
    hide Valid;
    var init, e := es[..|es| - 1], es[|es| - 1];
    PlayAppend(o, w, init, [e]);
    assert es == init + [e] && [e][1..] == [];
    NextKeepsValid(o, Play(o, w, init), e);
  }

  lemma AdvanceTrace(o: Oracles, db: Db, k: Task, clock: Clock)
    requires Judged(o, k)
    ensures var k' := Advance(o, db, k, clock).1;
      && (Asked(k').Some? ==> Asked(k') == Asked(k))
      && (FlagRead(k').Some? ==> FlagRead(k') == FlagRead(k) || Had(db, FlagRead(k').value))
      && Judged(o, k')
  {
    hide Rank;
  }

  lemma TraceGrows(o: Oracles, w: World, es: seq<Event>, e: Event, k: Task, k': Task)
    requires Valid(w.db) && Traced(o, w, es, k) && Judged(o, k')
    requires Asked(k').Some? ==> Asked(k') == Asked(k)
    requires FlagRead(k').Some? ==> FlagRead(k') == FlagRead(k) || Had(Play(o, w, es).db, FlagRead(k').value)
    ensures Traced(o, w, es + [e], k')
  {
    hide Play;
    hide Sent;
    hide Had;
    hide Judged;
    var all := es + [e];
    if Asked(k').Some? {
      var j :| 0 <= j < |es| && Sent(es[j], Asked(k).value);
      assert Sent(all[j], Asked(k').value);
    }
    if FlagRead(k').Some? {
      assert all[..|es|] == es;
      if FlagRead(k') == FlagRead(k) {
        var j :| 0 <= j <= |es| && Had(Play(o, w, es[..j]).db, FlagRead(k).value);
        assert all[..j] == es[..j];
        assert Had(Play(o, w, all[..j]).db, FlagRead(k').value);
      } else {
        assert Had(Play(o, w, all[..|es|]).db, FlagRead(k').value);
      }
    }
  }

  /** Whatever else happens, every verdict is the comparison of the answer that was
      sent with a flag that its level had at some moment of the schedule. */
  lemma {:induction false} EveryTaskTraced(o: Oracles, w: World, es: seq<Event>, i: nat)
    requires Valid(w.db) && w.tasks == [] && i < |Play(o, w, es).tasks|
    ensures Traced(o, w, es, Play(o, w, es).tasks[i])
    decreases |es|
  {
    hide Traced;
    hide Judged;
    hide Valid;
    hide Advance;
    if es != [] {
      var init, e := es[..|es| - 1], es[|es| - 1];
      PlayLast(o, w, es);
      assert es == init + [e];
      var before := Play(o, w, init);
      if i < |before.tasks| {
        EveryTaskTraced(o, w, init, i);
        LastTask(o, w, init, e, i);
      } else {
        assert e.Arrive?;
        ArrivalTraced(o, w, init, e);
      }
    }
  }

  lemma ArrivalTraced(o: Oracles, w: World, es: seq<Event>, e: Event)
    requires Valid(w.db) && e.Arrive?
    ensures Traced(o, w, es + [e], Arrived(e.token, e.level, e.answer))
  {
    assert Sent((es + [e])[|es|], (e.level, e.answer));
  }

  lemma LastTask(o: Oracles, w: World, es: seq<Event>, e: Event, i: nat)
    requires Valid(w.db) && i < |Play(o, w, es).tasks| && Traced(o, w, es, Play(o, w, es).tasks[i])
    ensures i < |Next(o, Play(o, w, es), e).tasks|
    ensures Traced(o, w, es + [e], Next(o, Play(o, w, es), e).tasks[i])
  {
    hide Play;
    hide Step;
    hide Advance;
    hide Valid;
    hide Judged;
    var at := Play(o, w, es);
    var k := at.tasks[i];
    if e.Proceed? && e.i == i {
      AdvanceTrace(o, at.db, k, e.clock);
    }
    TraceGrows(o, w, es, e, k, Next(o, at, e).tasks[i]);
  }

  /** The event stored a solve of l for u: a submission in flight whose verdict was
      "correct", or a whole request that credits it. */
  ghost predicate CreditedBy(o: Oracles, w: World, e: Event, u: UserId, l: LevelId)
    requires Valid(w.db)
  {
    || (e.Whole? && Credits(o, w.db, e.request, u, l))
    || (&& e.Proceed? && e.i < |w.tasks| && w.tasks[e.i].Passed?
        && w.tasks[e.i].user == u && w.tasks[e.i].level == l && w.tasks[e.i].correct)
  }

  lemma NextCredits(o: Oracles, w: World, e: Event, u: UserId, l: LevelId)
    requires Valid(w.db) && l in Solved(Next(o, w, e).db, u) && l !in Solved(w.db, u)
    ensures CreditedBy(o, w, e, u, l)
  {
    hide Step;
    hide LevelsOf;
    if e.Whole? {
      StepSolves(o, w.db, e.request, u, l);
    } else if e.Proceed? && e.i < |w.tasks| && w.tasks[e.i].Passed? && w.tasks[e.i].correct {
      RecordSolvedEffect(w.db, w.tasks[e.i].user, w.tasks[e.i].level);
    }
    hide Valid;
    hide Credits;
  }

  /** In every schedule a level newly solved by a player was credited by an event of
      the schedule: a correct verdict of that player's own submission (and every
      verdict is a true one), or a whole request. */
  lemma {:induction false} SchedulesCreditRightly(o: Oracles, w: World, es: seq<Event>, u: UserId, l: LevelId)
    requires Valid(w.db) && w.tasks == []
    requires l in Solved(Play(o, w, es).db, u) && l !in Solved(w.db, u)
    ensures exists j :: 0 <= j < |es| && CreditedBy(o, Play(o, w, es[..j]), es[j], u, l)
    ensures forall j, i | 0 <= j <= |es| && 0 <= i < |Play(o, w, es[..j]).tasks| ::
              Traced(o, w, es[..j], Play(o, w, es[..j]).tasks[i])
    decreases |es|
  {
    hide Next;
    hide CreditedBy;
    hide LevelsOf;
    hide Valid;
    hide Traced;
    forall j, i | 0 <= j <= |es| && 0 <= i < |Play(o, w, es[..j]).tasks|
      ensures Traced(o, w, es[..j], Play(o, w, es[..j]).tasks[i])
    {
      EveryTaskTraced(o, w, es[..j], i);
    }
    var n := |es| - 1;
    if es != [] {
      PlayLast(o, w, es);
      if l in Solved(Play(o, w, es[..n]).db, u) {
        SchedulesCreditRightly(o, w, es[..n], u, l);
        var j :| 0 <= j < n && CreditedBy(o, Play(o, w, es[..n][..j]), es[..n][j], u, l);
        assert es[..n][..j] == es[..j];
      } else {
        NextCredits(o, Play(o, w, es[..n]), es[n], u, l);
      }
    }
  }

  /** A wrong answer is told so and stores nothing. */
  lemma WrongAnswersStoreNothing(o: Oracles, w: World, es: seq<Event>, i: nat, clock: Clock)
    requires Valid(w.db) && w.tasks == [] && i < |Play(o, w, es).tasks| && Play(o, w, es).tasks[i].Passed?
    requires var k := Play(o, w, es).tasks[i]; o.lower(k.answer) != o.lower(k.flag)
    ensures var at := Play(o, w, es);
      Next(o, at, Proceed(i, clock)) == World(at.db, at.tasks[i := Finished(Answered(false))])
  {
    EveryTaskTraced(o, w, es, i);
    hide Valid;
    hide Play;
  }
}
