/** The life of one session token along a run of requests by everybody: active
    players stay in, idle ones are put out, refreshes are rare. */
module SessionRuns {
  import opened Schema
  import opened Operations
  import opened Hints
  import opened Sessions
  import opened Seed
  import opened System
  import opened Runs
  import opened Submissions

  /** What the run so far says about a token: when its remaining time was last
      examined on an admitted request (or it was created), when its expiry was
      last written, and the last clock reading made on its behalf. */
  datatype Audit = Audit(check: int, touch: int, seen: int)

  predicate Uses(r: Request, t: string) {
    r.Call? && r.token == t
  }

  ghost predicate Opens(o: Oracles, db: Db, r: Request, t: string)
    requires Valid(db)
  {
    r.Login? && r.token == t && Step(o, db, r).response == Ok200
  }

  predicate Admits(db: Db, t: string, clock: Clock) {
    RequireLogin(db, t, clock).1.Admitted?
  }

  predicate Refreshes(db: Db, t: string, clock: Clock) {
    Admits(db, t, clock) && t in db.sessions && NeedsRefresh(db.sessions[t].expiresAt, clock)
  }

  ghost function NextAudit(o: Oracles, db: Db, r: Request, t: string, a: Audit): Audit
    requires Valid(db)
  {
    if Opens(o, db, r, t) then Audit(r.now, r.now, r.now)
    else if Uses(r, t) && Refreshes(db, t, r.clock) then Audit(r.clock.remaining, r.clock.renew, r.clock.renew)
    else if Uses(r, t) && Admits(db, t, r.clock) then Audit(r.clock.remaining, a.touch, r.clock.remaining)
    else a
  }

  ghost function AuditAfter(o: Oracles, db: Db, rs: seq<Request>, t: string, a: Audit): Audit
    requires Valid(db)
    decreases |rs|
  {
    if rs == [] then a
    else
      StepKeepsValid(o, db, rs[0]);
      AuditAfter(o, Step(o, db, rs[0]).db, rs[1..], t, NextAudit(o, db, rs[0], t, a))
  }

  /** The clock does not run backwards between and within the token's requests. */
  predicate Timely(r: Request, t: string, a: Audit) {
    Uses(r, t) ==> a.seen <= r.clock.check <= r.clock.remaining <= r.clock.renew
  }

  ghost predicate TimelyRun(o: Oracles, db: Db, rs: seq<Request>, t: string, a: Audit)
    requires Valid(db)
    decreases |rs|
  {
    if rs == [] then true
    else
      StepKeepsValid(o, db, rs[0]);
      && Timely(rs[0], t, a)
      && TimelyRun(o, Step(o, db, rs[0]).db, rs[1..], t, NextAudit(o, db, rs[0], t, a))
  }

  /** The stored expiry is 30 days after the last write, to the whole second, and
      at least 15 days after the last check. */
  predicate InWindow(db: Db, t: string, a: Audit) {
    t in db.sessions ==>
      && db.sessions[t].expiresAt == Truncate(a.touch + 30 * DAY)
      && a.check + 15 * DAY <= db.sessions[t].expiresAt
      && a.touch <= a.seen
  }

  // ---------------------------------------------------------------------------
  // Other people's requests, and the handlers themselves, can only remove a session

  ghost predicate OnlyRemoves(db: Db, db': Db, t: string) {
    t in db'.sessions ==> t in db.sessions && db'.sessions[t] == db.sessions[t]
  }

  lemma AdministerSessions(db: Db, actor: UserId, action: Action, t: string)
    requires Valid(db)
    ensures OnlyRemoves(db, Administer(db, actor, action).db, t)
  {
    hide Valid;
    if action.EditHints? {
      AddHintsFrame(ClearHints(db, action.id), action.id, action.texts);
    } else if action.UpdateUser? {
      UpdateAccountUsers(db, actor, action.user, action.role, action.target);
    }
  }

  lemma PerformSessions(o: Oracles, db: Db, u: UserId, role: string, action: Action, t: string)
    requires Valid(db)
    ensures OnlyRemoves(db, Perform(o, db, u, role, action).db, t)
  {
    hide Valid;
    hide Administer;
    if !action.Read? && !action.SubmitFlag? {
      AdministerSessions(db, u, action, t);
    }
  }

  lemma ServeSessions(o: Oracles, db: Db, token: string, clock: Clock, action: Action, t: string)
    requires Valid(db)
    ensures OnlyRemoves(RequireLogin(db, token, clock).0, Serve(o, db, token, clock, action).db, t)
    ensures t != token ==> OnlyRemoves(db, RequireLogin(db, token, clock).0, t)
  {
    hide Perform;
    ServeShape(o, db, token, clock, action);
    var (db', a) := RequireLogin(db, token, clock);
    if a.Admitted? {
      PerformSessions(o, db', a.user, a.role, action, t);
    }
  }

  lemma OthersOnlyRemove(o: Oracles, db: Db, r: Request, t: string)
    requires Valid(db) && !Uses(r, t) && !Opens(o, db, r, t)
    ensures OnlyRemoves(db, Step(o, db, r).db, t)
  {
    match r
    case Call(token, clock, action) => ServeSessions(o, db, token, clock, action, t);
    case Reseed(seed) => if Loadable(seed) { LoadTheorem(db, seed); }
    case Login(username, password, token, now) => LogInSessions(o, db, username, password, token, now, t);
    case _ =>
  }

  lemma LogInSessions(o: Oracles, db: Db, username: string, password: string, token: string, now: int, t: string)
    ensures var out := LogIn(o, db, username, password, token, now);
      && (out.response == Ok200 ==> token !in db.sessions && token in out.db.sessions)
      && (out.response == Ok200 ==> out.db.sessions[token].expiresAt == Truncate(now + 30 * DAY))
      && (!(token == t && out.response == Ok200) ==> OnlyRemoves(db, out.db, t))
  {
  }

  // ---------------------------------------------------------------------------
  // The window is kept

  lemma AdmittedWindow(db: Db, t: string, clock: Clock, a: Audit)
    requires InWindow(db, t, a) && Admits(db, t, clock)
    requires a.seen <= clock.check <= clock.remaining <= clock.renew
    ensures InWindow(RequireLogin(db, t, clock).0, t,
                     if Refreshes(db, t, clock) then Audit(clock.remaining, clock.renew, clock.renew)
                     else Audit(clock.remaining, a.touch, clock.remaining))
  {
  }

  lemma StepWindow(o: Oracles, db: Db, r: Request, t: string, a: Audit)
    requires Valid(db) && InWindow(db, t, a) && Timely(r, t, a)
    ensures InWindow(Step(o, db, r).db, t, NextAudit(o, db, r, t, a))
  {
    hide Valid;
    hide Serve;
    hide LogIn;
    if Opens(o, db, r, t) {
      LogInSessions(o, db, r.username, r.password, r.token, r.now, t);
    } else if Uses(r, t) {
      ServeSessions(o, db, t, r.clock, r.action, t);
      if Admits(db, t, r.clock) {
        AdmittedWindow(db, t, r.clock, a);
      }
    } else {
      OthersOnlyRemove(o, db, r, t);
    }
  }

  lemma {:induction false} WindowAlongRun(o: Oracles, db: Db, rs: seq<Request>, t: string, a: Audit)
    requires Valid(db) && InWindow(db, t, a) && TimelyRun(o, db, rs, t, a)
    ensures InWindow(Run(o, db, rs), t, AuditAfter(o, db, rs, t, a))
    decreases |rs|
  {
    hide Step;
    hide NextAudit;
    hide InWindow;
    hide Timely;
    if rs != [] {
      StepKeepsValid(o, db, rs[0]);
      StepWindow(o, db, rs[0], t, a);
      WindowAlongRun(o, Step(o, db, rs[0]).db, rs[1..], t, NextAudit(o, db, rs[0], t, a));
    }
  }

  // ---------------------------------------------------------------------------
  // Consequences, for any run and any next request

  /** A request made at most 15 days after the last admitted one's check (or after
      login) is never turned away as expired. */
  lemma ActiveStaysLoggedIn(o: Oracles, db: Db, rs: seq<Request>, t: string, a: Audit, clock: Clock, action: Action)
    requires Valid(db) && InWindow(db, t, a) && TimelyRun(o, db, rs, t, a)
    requires clock.check <= AuditAfter(o, db, rs, t, a).check + 15 * DAY
    ensures !RequireLogin(Run(o, db, rs), t, clock).1.Expired?
    ensures Step(o, Run(o, db, rs), Call(t, clock, action)).response != Expired401
  {
    hide Valid;
    hide Perform;
    hide Serve;
    hide Run;
    WindowAlongRun(o, db, rs, t, a);
    var now := Run(o, db, rs);
    ServeShape(o, now, t, clock, action);
    var (db', adm) := RequireLogin(now, t, clock);
    if adm.Admitted? {
      PerformNotExpired(o, db', adm.user, adm.role, action);
    }
  }

  lemma PerformNotExpired(o: Oracles, db: Db, u: UserId, role: string, action: Action)
    requires Valid(db)
    ensures Perform(o, db, u, role, action).response != Expired401
    ensures Perform(o, db, u, role, action).response != Unauthorized401
  {
    hide Valid;
  }

  /** A request more than 30 days after the last clock reading of an admitted one
      is refused, and the token is gone afterwards. */
  lemma IdleIsPutOut(o: Oracles, db: Db, rs: seq<Request>, t: string, a: Audit, clock: Clock, action: Action)
    requires Valid(db) && InWindow(db, t, a) && TimelyRun(o, db, rs, t, a)
    requires clock.check > AuditAfter(o, db, rs, t, a).seen + 30 * DAY && t != ""
    ensures var out := Step(o, Run(o, db, rs), Call(t, clock, action));
      (out.response == Expired401 || out.response == Unauthorized401) && t !in out.db.sessions
  {
    WindowAlongRun(o, db, rs, t, a);
    var now := Run(o, db, rs);
    ServeShape(o, now, t, clock, action);
    if t in now.sessions {
      EmptyTokenUnused(now, t, clock);
    }
  }

  lemma EmptyTokenUnused(db: Db, t: string, clock: Clock)
    requires Valid(db) && t in db.sessions && clock.check > db.sessions[t].expiresAt && t != ""
    ensures RequireLogin(db, t, clock) == (DeleteSession(db, t), Expired)
  {
  }

  /** Two writes of one token's expiry lie more than 15 days less a second apart. */
  lemma RefreshesAreRare(o: Oracles, db: Db, rs: seq<Request>, t: string, a: Audit, clock: Clock)
    requires Valid(db) && InWindow(db, t, a) && TimelyRun(o, db, rs, t, a)
    requires clock.remaining <= clock.renew
    requires Refreshes(Run(o, db, rs), t, clock)
    ensures clock.renew - AuditAfter(o, db, rs, t, a).touch > 15 * DAY - SECOND
  {
    WindowAlongRun(o, db, rs, t, a);
  }

  /** A removed token is not brought back by anything but a login that draws it anew. */
  lemma {:induction false} RemovedStaysRemoved(o: Oracles, db: Db, rs: seq<Request>, t: string)
    requires Valid(db) && t !in db.sessions
    requires forall i :: 0 <= i < |rs| ==> !(rs[i].Login? && rs[i].token == t)
    ensures t !in Run(o, db, rs).sessions
    decreases |rs|
  {
    if rs != [] {
      StepKeepsValid(o, db, rs[0]);
      RemovedStep(o, db, rs[0], t);
      RemovedStaysRemoved(o, Step(o, db, rs[0]).db, rs[1..], t);
    }
  }

  lemma RemovedStep(o: Oracles, db: Db, r: Request, t: string)
    requires Valid(db) && t !in db.sessions && !(r.Login? && r.token == t)
    ensures t !in Step(o, db, r).db.sessions
  {
    if Uses(r, t) {
      ServeShape(o, db, t, r.clock, r.action);
    } else {
      OthersOnlyRemove(o, db, r, t);
    }
  }

  // ---------------------------------------------------------------------------
  // Active players stay in

  /** The request ends t's session on purpose: its logout, or a reset of the password
      or a deletion of its account. */
  ghost predicate Dismisses(o: Oracles, db: Db, r: Request, t: string)
    requires Valid(db)
  {
    || (r.Logout? && r.token == t)
    || (r.Call? && t in db.sessions && Evicts(r.action, Step(o, db, r).response, db.sessions[t].user))
  }

  predicate Evicts(action: Action, response: Response, u: UserId) {
    || (action.ResetPassword? && action.user == u && response == Ok200)
    || (action.DropUser? && action.user == u && response == NoContent204)
  }

  lemma AdministerKeepsToken(db: Db, actor: UserId, action: Action, t: string)
    requires Valid(db) && t in db.sessions
    requires !Evicts(action, Administer(db, actor, action).response, db.sessions[t].user)
    ensures var db' := Administer(db, actor, action).db;
      t in db'.sessions && db'.sessions[t] == db.sessions[t]
  {
    hide Valid;
    if action.EditHints? {
      AddHintsFrame(ClearHints(db, action.id), action.id, action.texts);
    } else if action.UpdateUser? {
      UpdateAccountUsers(db, actor, action.user, action.role, action.target);
      hide UpdateAccount;
    }
  }

  lemma ServeKeepsToken(o: Oracles, db: Db, r: Request, t: string)
    requires Valid(db) && r.Call? && t in db.sessions && t != "" && !Dismisses(o, db, r, t)
    requires Uses(r, t) ==> r.clock.check <= db.sessions[t].expiresAt
    ensures var db' := Step(o, db, r).db; t in db'.sessions && db'.sessions[t].user == db.sessions[t].user
  {
    AdmissionIff(db, r.token, r.clock);
    ServeShape(o, db, r.token, r.clock, r.action);
    var (db', a) := RequireLogin(db, r.token, r.clock);
    assert t in db'.sessions && db'.sessions[t].user == db.sessions[t].user;
    hide Valid;
    hide RequireLogin;
    hide Administer;
    hide Submit;
    if a.Admitted? {
      if r.action.SubmitFlag? {
        SubmitVerdict(o, db', a.user, r.action.level, r.action.answer);
      } else if !r.action.Read? && a.role == ROLE_ADMIN {
        AdministerKeepsToken(db', a.user, r.action, t);
      }
    }
  }

  lemma StepKeepsToken(o: Oracles, db: Db, r: Request, t: string)
    requires Valid(db) && t in db.sessions && t != "" && !Dismisses(o, db, r, t)
    requires Uses(r, t) ==> r.clock.check <= db.sessions[t].expiresAt
    ensures var db' := Step(o, db, r).db; t in db'.sessions && db'.sessions[t].user == db.sessions[t].user
  {
    hide Valid;
    hide Serve;
    hide UserByUsername;
    if r.Call? {
      ServeKeepsToken(o, db, r, t);
    } else if r.Reseed? && Loadable(r.seed) {
      LoadTheorem(db, r.seed);
    }
  }

  /** The token is used in time, its clock does not run backwards, and nothing ends
      its session on purpose. */
  ghost predicate Active(o: Oracles, db: Db, rs: seq<Request>, t: string, a: Audit)
    requires Valid(db)
    decreases |rs|
  {
    if rs == [] then true
    else
      StepKeepsValid(o, db, rs[0]);
      && Timely(rs[0], t, a)
      && (Uses(rs[0], t) ==> rs[0].clock.check <= a.check + 15 * DAY)
      && !Dismisses(o, db, rs[0], t)
      && Active(o, Step(o, db, rs[0]).db, rs[1..], t, NextAudit(o, db, rs[0], t, a))
  }

  /** Over runs of any length and whatever others do: a token used at least every 15
      days keeps admitting its account. */
  lemma {:induction false} ActiveStaysAdmitted(o: Oracles, db: Db, rs: seq<Request>, t: string, a: Audit, clock: Clock)
    requires Valid(db) && t != "" && t in db.sessions && InWindow(db, t, a) && Active(o, db, rs, t, a)
    requires clock.check <= AuditAfter(o, db, rs, t, a).check + 15 * DAY
    ensures var last, u := Run(o, db, rs), db.sessions[t].user;
      u in last.users && RequireLogin(last, t, clock).1 == Admitted(u, last.users[u].role)
    decreases |rs|
  {
    if rs == [] {
      AdmissionIff(db, t, clock);
    } else {
      StepKeepsValid(o, db, rs[0]);
      StepWindow(o, db, rs[0], t, a);
      StepKeepsToken(o, db, rs[0], t);
      hide Step;
      hide NextAudit;
      hide Dismisses;
      hide Valid;
      hide RequireLogin;
      ActiveStaysAdmitted(o, Step(o, db, rs[0]).db, rs[1..], t, NextAudit(o, db, rs[0], t, a), clock);
    }
  }
}
