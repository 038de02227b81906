/** What logging in, logging out and resetting a password give and take. */
module Credentials {
  import opened Schema
  import opened Operations
  import opened Sessions
  import opened System

  lemma NameFindsAccount(db: Db, u: UserId)
    requires Valid(db) && u in db.users
    ensures UserByUsername(db, db.users[u].username) == Some(u)
  {
    assert Named(db, db.users[u].username, u);
  }

  /** A login succeeds iff name and password are not empty, some account has the name
      and its hash matches, and the drawn token is not in use. */
  lemma LogInIff(o: Oracles, db: Db, username: string, password: string, token: string, now: int)
    requires Valid(db)
    ensures LogIn(o, db, username, password, token, now).response == Ok200
      <==> && username != "" && password != "" && token !in db.sessions
           && exists u :: Named(db, username, u) && o.matches(db.users[u].passwordHash, password)
    ensures LogIn(o, db, username, password, token, now).response != Ok200
      ==> LogIn(o, db, username, password, token, now).db == db
  {
    if u :| Named(db, username, u) {
      NameFindsAccount(db, u);
    }
  }

  /** The token of a successful login admits its account, with the role stored when
      it is used, until a second before 30 days are over. */
  lemma LogInAdmits(o: Oracles, db: Db, u: UserId, password: string, token: string, now: int, clock: Clock)
    requires Valid(db) && u in db.users && token != ""
    requires LogIn(o, db, db.users[u].username, password, token, now).response == Ok200
    requires clock.check <= now + 30 * DAY - SECOND
    ensures RequireLogin(LogIn(o, db, db.users[u].username, password, token, now).db, token, clock).1
         == Admitted(u, db.users[u].role)
  {
    NameFindsAccount(db, u);
  }

  lemma ResetSessions(db: Db, id: UserId, hash: string, t: string, clock: Clock)
    requires Valid(db) && id in db.users
    ensures RequireLogin(ResetAccount(db, id, hash).db, t, clock).1
         == if t in db.sessions && db.sessions[t].user == id then Unknown else RequireLogin(db, t, clock).1
  {
    DeleteUserSessionsEffect(UpdatePasswordHash(db, id, hash).db, id, t, clock);
    hide Valid;
  }

  /** After a reset every session of the account is out and every other one stays,
      and exactly the passwords matching the new hash log the account in. */
  lemma ResetPasswordEffect(o: Oracles, db: Db, id: UserId, hash: string, password: string, token: string, now: int)
    requires Valid(db) && id in db.users
    requires db.users[id].username != "" && password != "" && token !in db.sessions
    ensures var after, name := ResetAccount(db, id, hash).db, db.users[id].username;
      && (forall t, clock :: RequireLogin(after, t, clock).1
            == if t in db.sessions && db.sessions[t].user == id then Unknown else RequireLogin(db, t, clock).1)
      && (LogIn(o, after, name, password, token, now).response == Ok200 <==> o.matches(hash, password))
  {
    var after := ResetAccount(db, id, hash).db;
    ResetAccountKeepsValid(db, id, hash);
    LogInIff(o, after, db.users[id].username, password, token, now);
    NameFindsAccount(after, id);
    assert Named(after, db.users[id].username, id);
    forall t, clock
      ensures RequireLogin(after, t, clock).1
           == if t in db.sessions && db.sessions[t].user == id then Unknown else RequireLogin(db, t, clock).1
    {
      ResetSessions(db, id, hash, t, clock);
    }
  }
}
