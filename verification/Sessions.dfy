/** Session admission: expiry on use, sliding refresh, and a store that keeps
    whole seconds only. Times and durations are in nanoseconds. */
module Sessions {
  import opened Schema
  import opened Operations

  const SECOND: int := 1_000_000_000
  const DAY: int := 24 * 60 * 60 * SECOND
  const SESSION_TTL: int := 30 * DAY
  const SESSION_REFRESH_THRESHOLD: int := 15 * DAY

  lemma Durations()
    ensures SECOND == 1_000_000_000 && DAY == 86_400_000_000_000
    ensures SESSION_TTL == 30 * DAY && SESSION_REFRESH_THRESHOLD == 15 * DAY
  {
  }

  /** Formatting as RFC 3339 drops the fraction of a second. */
  function Truncate(t: int): (r: int)
    ensures r <= t < r + SECOND
    ensures r % SECOND == 0
  {
    t - t % SECOND
  }

  /** The clock readings one admitted request may take, in the order it takes them. */
  datatype Clock = Clock(check: int, remaining: int, renew: int)

  datatype Admission = Unknown | Expired | Admitted(user: UserId, role: string)

  function CreateSession(db: Db, token: string, user: UserId, expiresAt: int): Reply<()> {
    InsertSession(db, token, Session(user, Truncate(expiresAt)))
  }

  function RefreshSession(db: Db, token: string, expiresAt: int): Db {
    SetExpiry(db, token, Truncate(expiresAt))
  }

  predicate NeedsRefresh(expiresAt: int, clock: Clock) {
    expiresAt - clock.remaining < SESSION_REFRESH_THRESHOLD
  }

  /** An absent cookie is the empty token. The role is the one stored now. */
  function RequireLogin(db: Db, token: string, clock: Clock): (Db, Admission) {
    if token == "" || token !in db.sessions || db.sessions[token].user !in db.users then (db, Unknown)
    else
      var s := db.sessions[token];
      if clock.check > s.expiresAt then (DeleteSession(db, token), Expired)
      else
        var db' := if NeedsRefresh(s.expiresAt, clock)
                   then RefreshSession(db, token, clock.renew + SESSION_TTL) else db;
        (db', Admitted(s.user, db.users[s.user].role))
  }

  // ---------------------------------------------------------------------------
  // Removing sessions

  /** Whoever else holds a session is admitted as before; this token no longer is. */
  lemma DeleteSessionEffect(db: Db, token: string, t: string, clock: Clock)
    ensures token !in DeleteSession(db, token).sessions
    ensures RequireLogin(DeleteSession(db, token), t, clock).1
         == if t == token then Unknown else RequireLogin(db, t, clock).1
  {
  }

  /** No token of the account is admitted any more; every other one is as before. */
  lemma DeleteUserSessionsEffect(db: Db, id: UserId, t: string, clock: Clock)
    ensures RequireLogin(DeleteUserSessions(db, id), t, clock).1
         == if t in db.sessions && db.sessions[t].user == id then Unknown else RequireLogin(db, t, clock).1
  {
  }

  /** Whose session a token is, as far as admission goes. */
  predicate Holds(db: Db, t: string, u: UserId) {
    t != "" && t in db.sessions && db.sessions[t].user == u && u in db.users
  }

  /** A token is known iff some account holds it, which is then the one admitted,
      with the role it has now. */
  lemma AdmittedHolds(db: Db, t: string, clock: Clock)
    requires Valid(db)
    ensures RequireLogin(db, t, clock).1.Unknown? <==> forall u :: !Holds(db, t, u)
    ensures forall u, role :: RequireLogin(db, t, clock).1 == Admitted(u, role) ==>
              Holds(db, t, u) && role == db.users[u].role
  {
    if !RequireLogin(db, t, clock).1.Unknown? {
      assert Holds(db, t, db.sessions[t].user);
    }
  }

  // ---------------------------------------------------------------------------
  // Admission, as seen from the table

  /** The token is u's and has not run out. */
  predicate Enters(db: Db, t: string, clock: Clock, u: UserId) {
    Holds(db, t, u) && clock.check <= db.sessions[t].expiresAt
  }

  /** Nothing but the expiry of t may differ. */
  ghost predicate Renewed(before: map<string, Session>, after: map<string, Session>, t: string) {
    && after.Keys == before.Keys
    && forall s | s in before :: after[s].user == before[s].user && (s != t ==> after[s] == before[s])
  }

  /** A token admits exactly the account it enters as, with the stored role; one that
      has run out is removed; any other is unknown and changes nothing. */
  lemma AdmissionIff(db: Db, t: string, clock: Clock)
    requires Valid(db)
    ensures var (db', a) := RequireLogin(db, t, clock);
      && (forall u, role :: a == Admitted(u, role) <==> Enters(db, t, clock, u) && role == db.users[u].role)
      && (a.Expired? <==> exists u :: Holds(db, t, u) && clock.check > db.sessions[t].expiresAt)
      && db' == db.(sessions := db'.sessions)
      && (if a.Expired?
          then db'.sessions.Keys == db.sessions.Keys - {t} && forall s | s in db'.sessions :: db'.sessions[s] == db.sessions[s]
          else Renewed(db.sessions, db'.sessions, t))
      && (a.Unknown? ==> db' == db)
      && (a.Admitted? ==>
            db'.sessions[t].expiresAt == if db.sessions[t].expiresAt - clock.remaining < 15 * DAY
                                         then Truncate(clock.renew + 30 * DAY) else db.sessions[t].expiresAt)
  {
    if t in db.sessions && t != "" {
      assert Holds(db, t, db.sessions[t].user);
    }
    hide Valid;
  }
}
