/** What a player may open, computed by counting, against what the program says
    it is: every solved level plus the next unsolved one. */
module Progression {
  import opened Ranking
  import opened Schema
  import opened Operations
  import opened OperationFacts

  /** The counting gate: rank of the position against the current level. */
  predicate IsLevelAccessible(db: Db, u: UserId, orderIndex: int) {
    Rank(Catalogue(db), orderIndex) <= CurrentLevel(db, u)
  }

  datatype LevelItem = LevelItem(id: LevelId, title: string, solved: bool)

  /** The player's list: the first CurrentLevel levels, in order. */
  ghost function AccessibleList(db: Db, u: UserId): seq<LevelItem>
    requires Valid(db)
  {
    ItemsOf(db, u, Leading(db.levels, CurrentLevel(db, u)))
  }

  ghost function ItemsOf(db: Db, u: UserId, ids: seq<LevelId>): seq<LevelItem> {
    seq(|ids|, i requires 0 <= i < |ids| => ItemOf(db, u, ids[i]))
  }

  lemma TakeItems(db: Db, u: UserId, ids: seq<LevelId>, n: nat)
    requires n <= |ids|
    ensures ItemsOf(db, u, ids)[..n] == ItemsOf(db, u, ids[..n])
  {
  }

  ghost function ItemOf(db: Db, u: UserId, l: LevelId): LevelItem {
    LevelItem(l, if l in db.levels then db.levels[l].title else "", l in Solved(db, u))
  }

  ghost predicate Listed(items: seq<LevelItem>, l: LevelId) {
    exists i :: 0 <= i < |items| && items[i].id == l
  }

  lemma AccessibleIffGate(db: Db, u: UserId, l: LevelId)
    requires l in db.levels
    ensures l in Accessible(db, u) <==> IsLevelAccessible(db, u, db.levels[l].orderIndex)
  {
  }

  /** The facts every argument about one player starts from. */
  lemma Standing(db: Db, u: UserId)
    requires Valid(db)
    ensures Injective(Catalogue(db)) && Catalogue(db).Keys == db.levels.Keys && |Catalogue(db)| == |db.levels|
    ensures Solved(db, u) <= Catalogue(db).Keys && |Solved(db, u)| <= |db.levels|
    ensures CurrentLevel(db, u) == |Solved(db, u)| + 1
    ensures Accessible(db, u) == First(Catalogue(db), |Solved(db, u)| + 1)
  {
    CatalogueInjective(db.levels);
    CountIsSolved(db, u);
    assert Catalogue(db).Keys == db.levels.Keys;
    assert |Catalogue(db)| == |Catalogue(db).Keys|;
  }

  lemma MembersListed(db: Db, u: UserId, ids: seq<LevelId>)
    ensures forall l :: Listed(ItemsOf(db, u, ids), l) <==> l in set x | x in ids
  {
    forall l ensures Listed(ItemsOf(db, u, ids), l) <==> l in set x | x in ids {
      if l in ids {
        var i :| 0 <= i < |ids| && ids[i] == l;
        assert ItemsOf(db, u, ids)[i].id == l;
      }
    }
  }

  lemma ListShowsFirst(db: Db, u: UserId)
    requires Valid(db)
    ensures |AccessibleList(db, u)| == Min(CurrentLevel(db, u), |db.levels|)
    ensures forall l :: Listed(AccessibleList(db, u), l) <==> l in Accessible(db, u)
  {
    Standing(db, u);
    LeadingFacts(db.levels, CurrentLevel(db, u));
    MembersListed(db, u, Leading(db.levels, CurrentLevel(db, u)));
  }

  lemma LeadingOrdered(levels: map<LevelId, Level>, n: int)
    requires UniqueOrder(levels)
    ensures var ids := Leading(levels, n);
      && (forall i :: 0 <= i < |ids| ==> ids[i] in OrderOf(levels))
      && (forall i, j :: 0 <= i < j < |ids| ==> OrderOf(levels)[ids[i]] < OrderOf(levels)[ids[j]])
  {
    hide First;
    LeadingFacts(levels, n);
    CatalogueInjective(levels);
    hide Injective;
    var ids, s := Leading(levels, n), Sequence(OrderOf(levels));
    assert forall i :: 0 <= i < |ids| ==> ids[i] == s[i];
  }

  lemma ListIsOrdered(db: Db, u: UserId)
    requires Valid(db)
    ensures forall i :: 0 <= i < |AccessibleList(db, u)| ==> AccessibleList(db, u)[i].id in db.levels
    ensures forall i, j :: 0 <= i < j < |AccessibleList(db, u)| ==>
              Catalogue(db)[AccessibleList(db, u)[i].id] < Catalogue(db)[AccessibleList(db, u)[j].id]
  {
    LeadingOrdered(db.levels, CurrentLevel(db, u));
  }

  /** The list query and the gate let through the same levels; the list shows each
      once, by increasing order_index, and marks exactly the solved ones. */
  lemma ListAndGateAgree(db: Db, u: UserId)
    requires Valid(db)
    ensures forall l :: l in db.levels ==>
              (Listed(AccessibleList(db, u), l) <==> IsLevelAccessible(db, u, db.levels[l].orderIndex))
    ensures forall i :: 0 <= i < |AccessibleList(db, u)| ==>
              AccessibleList(db, u)[i].id in db.levels
    ensures forall i :: 0 <= i < |AccessibleList(db, u)| ==>
              (AccessibleList(db, u)[i].solved <==> AccessibleList(db, u)[i].id in Solved(db, u))
    ensures forall i, j :: 0 <= i < j < |AccessibleList(db, u)| ==>
              Catalogue(db)[AccessibleList(db, u)[i].id] < Catalogue(db)[AccessibleList(db, u)[j].id]
    ensures |AccessibleList(db, u)| == Min(CurrentLevel(db, u), |db.levels|)
  {
    ListShowsFirst(db, u);
    ListIsOrdered(db, u);
    forall l | l in db.levels
      ensures Listed(AccessibleList(db, u), l) <==> IsLevelAccessible(db, u, db.levels[l].orderIndex)
    {
      AccessibleIffGate(db, u, l);
    }
  }

  // ---------------------------------------------------------------------------
  // Single-level view

  datatype LevelView = Missing | Locked | Detail(id: LevelId, title: string, description: string, solved: bool)

  /** 404 for no such level, 403 for one the gate refuses. */
  ghost function GetLevel(db: Db, u: UserId, id: LevelId): LevelView {
    if id !in db.levels then Missing
    else if !IsLevelAccessible(db, u, db.levels[id].orderIndex) then Locked
    else Detail(id, db.levels[id].title, db.levels[id].description, id in Solved(db, u))
  }

  /** The level page opens for exactly the levels on the player's list. */
  lemma DetailIffListed(db: Db, u: UserId, id: LevelId)
    requires Valid(db)
    ensures GetLevel(db, u, id).Detail? <==> Listed(AccessibleList(db, u), id)
    ensures GetLevel(db, u, id).Detail? ==>
              LevelItem(id, GetLevel(db, u, id).title, GetLevel(db, u, id).solved) in AccessibleList(db, u)
  {
    ListAndGateAgree(db, u);
    if Listed(AccessibleList(db, u), id) {
      var i :| 0 <= i < |AccessibleList(db, u)| && AccessibleList(db, u)[i].id == id;
      assert AccessibleList(db, u)[i] == ItemOf(db, u, id);
    }
  }

  // ---------------------------------------------------------------------------
  // The claim: every solved level plus the next unsolved one

  /** The accessible levels are the solved ones and the lowest unsolved one, or
      all of them when nothing is left to solve. */
  ghost predicate SolvedPlusNext(db: Db, u: UserId) {
    PlusNext(Catalogue(db), Solved(db, u), Accessible(db, u))
  }

  /** Solved levels the gate refuses. */
  ghost function LockedSolved(db: Db, u: UserId): set<LevelId> {
    Solved(db, u) - Accessible(db, u)
  }

  /** The unsolved levels that stand before m. */
  function UnsolvedBelow(db: Db, u: UserId, m: LevelId): set<LevelId>
    requires m in db.levels
  {
    set x | x in db.levels && x !in Solved(db, u) && db.levels[x].orderIndex < db.levels[m].orderIndex
  }

  lemma UnsolvedBelowMissing(db: Db, u: UserId, m: LevelId)
    requires m in db.levels
    ensures UnsolvedBelow(db, u, m) == MissingBelow(Catalogue(db), Solved(db, u), m)
  {
    assert forall x :: x in Catalogue(db) <==> x in db.levels;
  }

  /** The claim holds exactly when at most one unsolved level stands before any
      solved one. */
  lemma SolvedPlusNextIff(db: Db, u: UserId)
    requires Valid(db)
    ensures Solved(db, u) <= db.levels.Keys
    ensures SolvedPlusNext(db, u) <==> forall m :: m in Solved(db, u) ==> |UnsolvedBelow(db, u, m)| <= 1
  {
    hide First;
    hide LevelsOf;
    hide PlusNext;
    hide Injective;
    hide Valid;
    Standing(db, u);
    PlusNextIff(Catalogue(db), Solved(db, u));
    CoverIff(Catalogue(db), Solved(db, u));
    forall m | m in Solved(db, u)
      ensures UnsolvedBelow(db, u, m) == MissingBelow(Catalogue(db), Solved(db, u), m)
    {
      UnsolvedBelowMissing(db, u, m);
    }
  }

  /** A linear history, gap 0, is enough for the claim; a gap of 2 rules it out. */
  lemma PrefixTheorem(db: Db, u: UserId)
    requires Valid(db)
    ensures GapOf(db, u) == 0 <==> Solved(db, u) == First(Catalogue(db), |Solved(db, u)|)
    ensures GapOf(db, u) == 0 ==> SolvedPlusNext(db, u)
    ensures SolvedPlusNext(db, u) ==> GapOf(db, u) <= 1
  {
    hide Valid;
    hide Gap;
    hide First;
    hide PlusNext;
    hide Injective;
    hide LevelsOf;
    Standing(db, u);
    var ord, s := Catalogue(db), Solved(db, u);
    GapZero(ord, s);
    PlusNextIff(ord, s);
    FirstMonotone(ord, |s|, |s| + 1);
  }

  /** The gap counts the solved levels beyond the first k = |solved| ranks. All of
      them are locked but the one that may stand at rank k + 1. */
  lemma GapBoundsLocked(db: Db, u: UserId)
    requires Valid(db)
    ensures var ord, s := Catalogue(db), Solved(db, u);
      && |s - First(ord, |s|)| == GapOf(db, u)
      && |LockedSolved(db, u)| == GapOf(db, u) - |(First(ord, |s| + 1) - First(ord, |s|)) * s|
  {
    hide First;
    hide LevelsOf;
    hide Gap;
    hide Injective;
    Standing(db, u);
    hide Valid;
    var ord, s := Catalogue(db), Solved(db, u);
    GapCountsOutside(ord, s);
    OutsideNext(ord, s);
    assert LockedSolved(db, u) == s - First(ord, |s| + 1);
  }

  /** Whatever admins did, an unfinished player has an open unsolved level. */
  lemma NoDeadEnd(db: Db, u: UserId)
    requires Valid(db)
    ensures Solved(db, u) != db.levels.Keys ==>
              exists l :: l in db.levels && l !in Solved(db, u) && IsLevelAccessible(db, u, db.levels[l].orderIndex)
  {
    Standing(db, u);
    var ord, s := Catalogue(db), Solved(db, u);
    if s != db.levels.Keys {
      SomeMissingIsNear(ord, s);
      var l :| l in First(ord, |s| + 1) && l !in s;
      assert l in db.levels && IsLevelAccessible(db, u, db.levels[l].orderIndex);
    }
  }

  // ---------------------------------------------------------------------------
  // Setting progress from the admin panel

  /** Setting level N >= 1 solves exactly the first min(N - 1, n) levels, closes the
      gap and touches nobody else's progress and no other table. */
  lemma SetProgressTheorem(db: Db, u: UserId, level: int)
    requires Valid(db) && u in db.users && level >= 1
    ensures var db' := SetUserProgressToLevel(db, u, level).db;
      && Valid(db')
      && db' == db.(progress := db'.progress, progressSeq := db'.progressSeq)
      && Solved(db', u) == First(Catalogue(db), level - 1)
      && CurrentLevel(db', u) == Min(level, |db.levels| + 1)
      && GapOf(db', u) == 0
      && (forall v :: v != u ==> Solved(db', v) == Solved(db, v))
  {
    hide Valid;
    hide First;
    hide Gap;
    hide LevelsOf;
    hide SetUserProgressToLevel;
    var db' := SetUserProgressToLevel(db, u, level).db;
    SetProgressEffect(db, u, level);
    SetProgressFrame(db, u, level);
    Standing(db', u);
    LeadingGap(Catalogue(db), level - 1);
  }

  lemma LeadingGap(ord: Order<LevelId>, n: int)
    requires Injective(ord)
    ensures |First(ord, n)| == Limit(ord, n) && Gap(ord, First(ord, n)) == 0
  {
    FirstFacts(ord, n);
    GapZero(ord, First(ord, n));
  }

  /** Setting the same level again changes nobody's solved set. */
  lemma SetProgressIdempotent(db: Db, u: UserId, level: int)
    requires Valid(db) && u in db.users
    ensures var db' := SetUserProgressToLevel(db, u, level).db;
      && Valid(db') && SetUserProgressToLevel(db', u, level).result.Ok?
      && forall v :: Solved(SetUserProgressToLevel(db', u, level).db, v) == Solved(db', v)
  {
    var db' := SetUserProgressToLevel(db, u, level).db;
    SetProgressEffect(db, u, level);
    SetProgressFrame(db, u, level);
    SetProgressEffect(db', u, level);
  }

  /** Re-applying a player's own current level keeps the count of solved levels,
      and keeps the set itself exactly when there is no gap. */
  lemma ReapplyCurrentLevel(db: Db, u: UserId)
    requires Valid(db) && u in db.users
    ensures var db' := SetUserProgressToLevel(db, u, CurrentLevel(db, u)).db;
      && |Solved(db', u)| == |Solved(db, u)|
      && (Solved(db', u) == Solved(db, u) <==> GapOf(db, u) == 0)
  {
    Standing(db, u);
    SetProgressEffect(db, u, CurrentLevel(db, u));
    FirstSize(Catalogue(db), |Solved(db, u)|);
    GapZero(Catalogue(db), Solved(db, u));
  }

  // ---------------------------------------------------------------------------
  // How one operation moves a player's gap

  lemma SolveKeepsGap(db: Db, u: UserId, l: LevelId, v: UserId)
    requires Valid(db) && u in db.users && l in Accessible(db, u)
    ensures Valid(RecordSolved(db, u, l).db)
    ensures GapOf(RecordSolved(db, u, l).db, v) <= GapOf(db, v)
  {
    hide Valid;
    hide Gap;
    hide First;
    hide LevelsOf;
    hide RowsOf;
    RecordSolvedKeepsValid(db, u, l);
    RecordSolvedEffect(db, u, l);
    Standing(db, u);
    if l in Solved(db, u) {
      assert Solved(db, u) + {l} == Solved(db, u);
    } else {
      GapAfterSolve(Catalogue(db), Solved(db, u), l);
    }
  }

  lemma DeleteLevelKeepsGap(db: Db, id: LevelId, v: UserId)
    requires Valid(db)
    ensures Valid(DeleteLevel(db, id).db)
    ensures GapOf(DeleteLevel(db, id).db, v) <= GapOf(db, v)
  {
    DeleteLevelKeepsValid(db, id);
    if id in db.levels {
      DeleteLevelEffect(db, id);
      CatalogueInjective(db.levels);
      CountIsSolved(db, v);
      GapAfterDelete(Catalogue(db), Solved(db, v), id);
    }
  }

  lemma PlacementGap(db: Db, db': Db, id: LevelId, orderIndex: int, v: UserId)
    requires Valid(db) && Valid(db') && db'.progress == db.progress
    requires Catalogue(db') == Catalogue(db)[id := orderIndex]
    ensures GapOf(db', v) <= GapOf(db, v) + 1
  {
    Standing(db, v);
    Standing(db', v);
    Replaced(Catalogue(db), id, orderIndex);
    GapAfterPlacement(Catalogue(db), Catalogue(db'), Solved(db, v), id);
  }

  lemma Replaced(ord: Order<LevelId>, id: LevelId, x: int)
    ensures Without(ord[id := x], id) == Without(ord, id)
    ensures id in ord && ord[id] == x ==> ord[id := x] == ord
  {
  }
}
