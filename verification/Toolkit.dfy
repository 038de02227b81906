/** The tools a player has unlocked, and the two ways the program asks for them. */
module Toolkit {
  import opened Ranking
  import opened Schema
  import opened Operations

  /** Tied to no level, or to a level the player has solved. */
  predicate Unlocked(db: Db, u: UserId, t: ToolId) {
    t in db.tools && (db.tools[t].unlocksAt.None? || db.tools[t].unlocksAt.value in Solved(db, u))
  }

  function UnlockedIds(db: Db, u: UserId): set<ToolId> {
    set t | t in db.tools && Unlocked(db, u, t)
  }

  datatype ToolItem = ToolItem(id: ToolId, kind: string, title: string, description: string, content: string)

  function ItemOfTool(db: Db, t: ToolId): ToolItem {
    if t in db.tools
    then ToolItem(t, db.tools[t].kind, db.tools[t].title, db.tools[t].description, db.tools[t].content)
    else ToolItem(t, "", "", "", "")
  }

  function ToolsById(ids: set<ToolId>): Order<ToolId> {
    map t | t in ids :: t.n
  }

  lemma ToolsByIdInjective(ids: set<ToolId>)
    ensures Injective(ToolsById(ids)) && ToolsById(ids).Keys == ids
  {
    assert forall t: ToolId :: t == ToolId(t.n);
  }

  /** The unlocked tools ordered by id. */
  ghost function UnlockedTools(db: Db, u: UserId): seq<ToolItem> {
    ToolsByIdInjective(UnlockedIds(db, u));
    ToolItems(db, Sequence(ToolsById(UnlockedIds(db, u))))
  }

  function ToolItems(db: Db, ids: seq<ToolId>): (items: seq<ToolItem>)
    ensures |items| == |ids|
  {
    seq(|ids|, i requires 0 <= i < |ids| => ItemOfTool(db, ids[i]))
  }

  lemma ToolsInIdOrder(ids: set<ToolId>, order: seq<ToolId>)
    requires Sorted(ToolsById(ids), order)
    ensures forall i :: 0 <= i < |order| ==> order[i] in ids
    ensures forall i, j :: 0 <= i < j < |order| ==> order[i].n < order[j].n
  {
    SortedMembers(ToolsById(ids), order);
    forall i, j | 0 <= i < j < |order| ensures order[i].n < order[j].n {
      assert ToolsById(ids)[order[i]] < ToolsById(ids)[order[j]];
    }
  }

  /** Picking the unlocked ones out of all tools in id order. */
  lemma PickedInOrder(db: Db, u: UserId, ids: seq<ToolId>)
    requires forall t :: t in ids <==> t in db.tools && Unlocked(db, u, t)
    requires forall i, j :: 0 <= i < j < |ids| ==> ids[i].n < ids[j].n
    ensures UnlockedTools(db, u) == ToolItems(db, ids)
  {
    assert forall t :: t in ids <==> t in UnlockedIds(db, u);
    var ord := ToolsById(UnlockedIds(db, u));
    ToolsByIdInjective(UnlockedIds(db, u));
    hide UnlockedIds;
    assert forall i :: 0 <= i < |ids| ==> ids[i] in ids;
    SameSize(ord, ids);
    SequenceUnique(ord, ids);
  }

  /** The list of items is the toolkit: each unlocked tool once, by increasing id,
      with what its row says. */
  ghost predicate IsToolkit(db: Db, u: UserId, items: seq<ToolItem>) {
    && (forall i :: 0 <= i < |items| ==> Unlocked(db, u, items[i].id))
    && (forall t :: t in db.tools && Unlocked(db, u, t) ==> exists i :: 0 <= i < |items| && items[i].id == t)
    && (forall i, j :: 0 <= i < j < |items| ==> items[i].id.n < items[j].id.n)
    && (forall i :: 0 <= i < |items| ==>
          && items[i].kind == db.tools[items[i].id].kind && items[i].title == db.tools[items[i].id].title
          && items[i].description == db.tools[items[i].id].description
          && items[i].content == db.tools[items[i].id].content)
  }

  lemma UnlockedToolsAreToolkit(db: Db, u: UserId)
    ensures IsToolkit(db, u, UnlockedTools(db, u))
  {
    hide Sorted;
    hide UnlockedIds;
    hide IsToolkit;
    var ids := UnlockedIds(db, u);
    ToolsByIdInjective(ids);
    ItemsAreToolkit(db, u, Sequence(ToolsById(ids)));
    hide Sequence;
    hide Injective;
  }

  lemma ItemsAreToolkit(db: Db, u: UserId, s: seq<ToolId>)
    requires Sorted(ToolsById(UnlockedIds(db, u)), s)
    ensures IsToolkit(db, u, ToolItems(db, s))
  {
    var ids := UnlockedIds(db, u);
    ToolsInIdOrder(ids, s);
    ToolsByIdInjective(ids);
    SortedCovers(ToolsById(ids), s);
    ItemsOfIds(db, u, s);
  }

  lemma ItemsOfIds(db: Db, u: UserId, s: seq<ToolId>)
    requires forall i :: 0 <= i < |s| ==> s[i] in db.tools && Unlocked(db, u, s[i])
    requires forall i, j :: 0 <= i < j < |s| ==> s[i].n < s[j].n
    requires forall t :: t in db.tools && Unlocked(db, u, t) ==> t in s
    ensures IsToolkit(db, u, ToolItems(db, s))
  {
    hide Unlocked;
    var items := ToolItems(db, s);
    assert forall i | 0 <= i < |items| :: items[i] == ItemOfTool(db, s[i]);
    forall t | t in db.tools && Unlocked(db, u, t) ensures exists i :: 0 <= i < |items| && items[i].id == t {
      var i :| 0 <= i < |s| && s[i] == t;
      assert items[i].id == t;
    }
    UnlockedExist(db, u);
  }

  lemma UnlockedExist(db: Db, u: UserId)
    ensures forall t :: Unlocked(db, u, t) ==> t in db.tools
  {
  }

  /** Some unlocked tool has the path as its content. */
  predicate IsToolFileUnlocked(db: Db, u: UserId, path: string) {
    exists t :: t in db.tools && db.tools[t].content == path && Unlocked(db, u, t)
  }

  /** A file may be downloaded iff the toolkit shows a tool with that content. */
  lemma ToolViewsAgree(db: Db, u: UserId, path: string)
    ensures IsToolFileUnlocked(db, u, path)
      <==> exists i :: 0 <= i < |UnlockedTools(db, u)| && UnlockedTools(db, u)[i].content == path
  {
    var ids, items := UnlockedIds(db, u), UnlockedTools(db, u);
    ToolsByIdInjective(ids);
    var s := Sequence(ToolsById(ids));
    if IsToolFileUnlocked(db, u, path) {
      var t :| t in db.tools && db.tools[t].content == path && Unlocked(db, u, t);
      assert t in s;
      var i :| 0 <= i < |s| && s[i] == t;
      assert items[i].content == path;
    }
    if i :| 0 <= i < |items| && items[i].content == path {
      assert s[i] in s;
    }
  }

  // ---------------------------------------------------------------------------
  // What the admin panel's tool writes do to every player's toolkit

  /** Whether a tool with this row would be on the player's toolkit. */
  predicate Opens(db: Db, v: UserId, tool: Tool) {
    tool.unlocksAt.None? || tool.unlocksAt.value in Solved(db, v)
  }

  /** A tool is refused iff it names no existing level; a stored one gets an id never
      used before and joins exactly the toolkits it opens for. */
  lemma CreateToolEffect(db: Db, input: Tool, v: UserId)
    requires Valid(db)
    ensures var r, id := CreateTool(db, input), ToolId(db.toolSeq + 1);
      && id !in db.tools
      && (r.result.Ok? <==> LevelExists(db, input.unlocksAt))
      && (r.result.Err? ==> r.db == db)
      && (r.result.Ok? ==> UnlockedIds(r.db, v) == UnlockedIds(db, v) + if Opens(db, v, input) then {id} else {})
      && (forall t :: t in UnlockedIds(db, v) ==> ItemOfTool(r.db, t) == ItemOfTool(db, t))
  {
    assert ToolIds(db.tools, db.toolSeq);
    hide Valid;
    hide LevelsOf;
  }

  /** Editing a tool moves that one tool on or off each toolkit. */
  lemma UpdateToolEffect(db: Db, id: ToolId, input: Tool, v: UserId)
    ensures var r := UpdateTool(db, id, input);
      && (r.result.Ok? <==> id in db.tools && LevelExists(db, input.unlocksAt))
      && (r.result.Err? ==> r.db == db)
      && (r.result.Ok? ==> UnlockedIds(r.db, v) == UnlockedIds(db, v) - {id} + if Opens(db, v, input) then {id} else {})
      && (forall t :: t in UnlockedIds(db, v) && t != id ==> ItemOfTool(r.db, t) == ItemOfTool(db, t))
  {
    hide LevelsOf;
  }

  /** Deleting a tool takes that one tool off every toolkit. */
  lemma DeleteToolEffect(db: Db, id: ToolId, v: UserId)
    ensures var r := DeleteTool(db, id);
      && (r.result.Ok? <==> id in db.tools)
      && UnlockedIds(r.db, v) == UnlockedIds(db, v) - {id}
      && (forall t :: t in UnlockedIds(r.db, v) ==> ItemOfTool(r.db, t) == ItemOfTool(db, t))
  {
    hide LevelsOf;
  }
}
