/** The admin panel's view of accounts. */
module Accounts {
  import opened Ranking
  import opened Schema

  datatype AdminUser = AdminUser(id: UserId, username: string, role: string, createdAt: int, currentLevel: nat)

  function Account(db: Db, id: UserId): AdminUser
    requires id in db.users
  {
    AdminUser(id, db.users[id].username, db.users[id].role, db.users[id].createdAt, CurrentLevel(db, id))
  }

  /** The entry says of its account what the tables say. */
  ghost predicate Describes(db: Db, a: AdminUser) {
    && a.id in db.users
    && a.username == db.users[a.id].username
    && a.role == db.users[a.id].role
    && a.createdAt == db.users[a.id].createdAt
    && a.currentLevel == |Solved(db, a.id)| + 1
  }

  lemma AccountDescribes(db: Db, id: UserId)
    requires Valid(db) && id in db.users
    ensures Describes(db, Account(db, id)) && Account(db, id).id == id
  {
    CountIsSolved(db, id);
  }

  function UsersById(users: map<UserId, User>): Order<UserId> {
    map u | u in users :: u.n
  }

  lemma UsersByIdInjective(users: map<UserId, User>)
    ensures Injective(UsersById(users)) && UsersById(users).Keys == users.Keys
  {
    assert forall u: UserId :: u == UserId(u.n);
  }

  /** One entry per account, by increasing id. */
  ghost predicate ListsEveryAccount(db: Db, list: seq<AdminUser>) {
    && |list| == |db.users|
    && (forall i :: 0 <= i < |list| ==> Describes(db, list[i]) && list[i] == Account(db, list[i].id))
    && (forall i, j :: 0 <= i < j < |list| ==> list[i].id.n < list[j].id.n)
    && (forall u :: u in db.users ==> exists i :: 0 <= i < |list| && list[i].id == u)
  }

  lemma AccountsInIdOrder(db: Db, order: seq<UserId>, list: seq<AdminUser>)
    requires Valid(db) && Sorted(UsersById(db.users), order) && |list| == |order|
    requires forall i :: 0 <= i < |order| ==> order[i] in db.users && list[i] == Account(db, order[i])
    ensures ListsEveryAccount(db, list)
  {
    hide Valid;
    hide Describes;
    forall i | 0 <= i < |list| ensures Describes(db, list[i]) && list[i].id == order[i] {
      AccountDescribes(db, order[i]);
    }
    assert |UsersById(db.users)| == |db.users| by {
      assert UsersById(db.users).Keys == db.users.Keys;
    }
    forall u | u in db.users ensures exists i :: 0 <= i < |list| && list[i].id == u {
      assert u in order;
      var i :| 0 <= i < |order| && order[i] == u;
      assert list[i].id == u;
    }
    forall i, j | 0 <= i < j < |list| ensures list[i].id.n < list[j].id.n {
      assert UsersById(db.users)[order[i]] < UsersById(db.users)[order[j]];
    }
  }
}
