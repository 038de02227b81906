/** Migration 2 turns "a level unlocks at most one tool" into "a tool is unlocked
    by at most one level", and its reverse turns it back. Each side carries the
    links over with a scalar subquery, which keeps one row when several match. */
module Migration {
  import opened Sets
  import opened Schema

  datatype LevelV1 = LevelV1(row: Level, unlocksTool: Option<ToolId>)
  datatype ToolV1 = ToolV1(kind: string, title: string, description: string, content: string)

  /** Before: levels.unlocks_tool_id -> tools.id. */
  datatype V1 = V1(levels: map<LevelId, LevelV1>, tools: map<ToolId, ToolV1>)

  /** After: tools.unlocks_at_level_id -> levels.id. */
  datatype V2 = V2(levels: map<LevelId, Level>, tools: map<ToolId, Tool>)

  ghost predicate ValidV1(v: V1) {
    forall l :: l in v.levels && v.levels[l].unlocksTool.Some? ==> v.levels[l].unlocksTool.value in v.tools
  }

  ghost predicate ValidV2(v: V2) {
    ToolRefs(v.tools, v.levels)
  }

  predicate LinkV1(v: V1, l: LevelId, t: ToolId) {
    l in v.levels && v.levels[l].unlocksTool == Some(t)
  }

  predicate LinkV2(v: V2, l: LevelId, t: ToolId) {
    t in v.tools && v.tools[t].unlocksAt == Some(l)
  }

  function UpTool(t: ToolV1, unlocksAt: Option<LevelId>): Tool {
    Tool(t.kind, t.title, t.description, t.content, unlocksAt)
  }

  function DownTool(t: Tool): ToolV1 {
    ToolV1(t.kind, t.title, t.description, t.content)
  }

  // A scalar subquery: NULL without a match, otherwise one of the matches.

  ghost predicate PickedLevel(v: V1, t: ToolId, choice: Option<LevelId>) {
    match choice
    case None => forall l :: !LinkV1(v, l, t)
    case Some(l) => LinkV1(v, l, t)
  }

  ghost predicate PickedTool(v: V2, l: LevelId, choice: Option<ToolId>) {
    match choice
    case None => forall t :: !LinkV2(v, l, t)
    case Some(t) => LinkV2(v, l, t)
  }

  /** v2 is a result of the up migration on v1, whichever matching row each
      subquery took. */
  ghost predicate IsUp(v1: V1, v2: V2) {
    && v2.levels == (map l | l in v1.levels :: v1.levels[l].row)
    && v2.tools.Keys == v1.tools.Keys
    && forall t :: t in v1.tools ==>
         && v2.tools[t] == UpTool(v1.tools[t], v2.tools[t].unlocksAt)
         && PickedLevel(v1, t, v2.tools[t].unlocksAt)
  }

  /** v1 is a result of the down migration on v2. */
  ghost predicate IsDown(v2: V2, v1: V1) {
    && v1.tools == (map t | t in v2.tools :: DownTool(v2.tools[t]))
    && v1.levels.Keys == v2.levels.Keys
    && forall l :: l in v2.levels ==>
         && v1.levels[l].row == v2.levels[l]
         && PickedTool(v2, l, v1.levels[l].unlocksTool)
  }

  // ---------------------------------------------------------------------------
  // The migrations themselves, row by row

  /** The first matching level in id order, as SQLite's scan takes it. */
  method FirstLevel(v: V1, t: ToolId) returns (choice: Option<LevelId>)
    ensures PickedLevel(v, t, choice)
    ensures choice.Some? ==> forall l :: LinkV1(v, l, t) ==> choice.value.n <= l.n
  {
    choice := None;
    var rest := v.levels.Keys;
    while rest != {}
      invariant rest <= v.levels.Keys
      invariant choice.None? ==> forall l :: LinkV1(v, l, t) ==> l in rest
      invariant choice.Some? ==> LinkV1(v, choice.value, t)
      invariant choice.Some? ==> forall l :: LinkV1(v, l, t) ==> l in rest || choice.value.n <= l.n
      decreases |rest|
    {
      ghost var w := Pick(rest);
      var l :| l in rest;
      rest := rest - {l};
      if v.levels[l].unlocksTool == Some(t) && (choice.None? || l.n < choice.value.n) {
        choice := Some(l);
      }
    }
  }

  method FirstTool(v: V2, l: LevelId) returns (choice: Option<ToolId>)
    ensures PickedTool(v, l, choice)
    ensures choice.Some? ==> forall t :: LinkV2(v, l, t) ==> choice.value.n <= t.n
  {
    choice := None;
    var rest := v.tools.Keys;
    while rest != {}
      invariant rest <= v.tools.Keys
      invariant choice.None? ==> forall t :: LinkV2(v, l, t) ==> t in rest
      invariant choice.Some? ==> LinkV2(v, l, choice.value)
      invariant choice.Some? ==> forall t :: LinkV2(v, l, t) ==> t in rest || choice.value.n <= t.n
      decreases |rest|
    {
      ghost var w := Pick(rest);
      var t :| t in rest;
      rest := rest - {t};
      if v.tools[t].unlocksAt == Some(l) && (choice.None? || t.n < choice.value.n) {
        choice := Some(t);
      }
    }
  }

  lemma UpKeepsReferences(v1: V1, v2: V2)
    requires IsUp(v1, v2)
    ensures ValidV2(v2)
  {
    forall t | t in v2.tools && v2.tools[t].unlocksAt.Some? ensures v2.tools[t].unlocksAt.value in v2.levels {
      assert PickedLevel(v1, t, v2.tools[t].unlocksAt);
    }
  }

  /** Add the column, fill it for every tool, drop the old column. */
  method Up(v1: V1) returns (v2: V2)
    requires ValidV1(v1)
    ensures IsUp(v1, v2) && ValidV2(v2)
  {
    hide PickedLevel;
    hide LinkV1;
    hide ValidV1;
    var tools := map t | t in v1.tools :: UpTool(v1.tools[t], None);
    var rest := v1.tools.Keys;
    while rest != {}
      invariant rest <= v1.tools.Keys && tools.Keys == v1.tools.Keys
      invariant forall t :: t in v1.tools ==> tools[t] == UpTool(v1.tools[t], tools[t].unlocksAt)
      invariant forall t :: t in v1.tools && t !in rest ==> PickedLevel(v1, t, tools[t].unlocksAt)
      decreases |rest|
    {
      ghost var w := Pick(rest);
      var t :| t in rest;
      rest := rest - {t};
      var choice := FirstLevel(v1, t);
      tools := tools[t := tools[t].(unlocksAt := choice)];
    }
    v2 := V2(map l | l in v1.levels :: v1.levels[l].row, tools);
    UpKeepsReferences(v1, v2);
  }

  /** Add the column, fill it for every level, drop the old column. */
  method Down(v2: V2) returns (v1: V1)
    requires ValidV2(v2)
    ensures IsDown(v2, v1) && ValidV1(v1)
  {
    var levels := map l | l in v2.levels :: LevelV1(v2.levels[l], None);
    var rest := v2.levels.Keys;
    while rest != {}
      invariant rest <= v2.levels.Keys && levels.Keys == v2.levels.Keys
      invariant forall l :: l in v2.levels ==> levels[l].row == v2.levels[l]
      invariant forall l :: l in v2.levels && l !in rest ==> PickedTool(v2, l, levels[l].unlocksTool)
      decreases |rest|
    {
      ghost var w := Pick(rest);
      var l :| l in rest;
      rest := rest - {l};
      var choice := FirstTool(v2, l);
      levels := levels[l := levels[l].(unlocksTool := choice)];
    }
    v1 := V1(levels, map t | t in v2.tools :: DownTool(v2.tools[t]));
  }

  // ---------------------------------------------------------------------------
  // Round trips

  /** No link is invented, and a tool or level that had one keeps one. */
  lemma UpLinks(v1: V1, v2: V2)
    requires ValidV1(v1) && IsUp(v1, v2)
    ensures forall l, t :: LinkV2(v2, l, t) ==> LinkV1(v1, l, t)
    ensures forall l, t :: LinkV1(v1, l, t) ==> exists k :: LinkV2(v2, k, t)
  {
    forall l, t | LinkV1(v1, l, t) ensures exists k :: LinkV2(v2, k, t) {
      assert t in v1.tools;
      assert PickedLevel(v1, t, v2.tools[t].unlocksAt);
      assert LinkV2(v2, v2.tools[t].unlocksAt.value, t);
    }
  }

  lemma DownLinks(v2: V2, v1: V1)
    requires ValidV2(v2) && IsDown(v2, v1)
    ensures forall l, t :: LinkV1(v1, l, t) ==> LinkV2(v2, l, t)
    ensures forall l, t :: LinkV2(v2, l, t) ==> exists k :: LinkV1(v1, l, k)
  {
    forall l, t | LinkV2(v2, l, t) ensures exists k :: LinkV1(v1, l, k) {
      assert l in v2.levels;
      assert PickedTool(v2, l, v1.levels[l].unlocksTool);
      assert LinkV1(v1, l, v1.levels[l].unlocksTool.value);
    }
  }

  ghost predicate ToolsUnshared(v: V1) {
    forall l, k, t :: LinkV1(v, l, t) && LinkV1(v, k, t) ==> l == k
  }

  ghost predicate LevelsUnshared(v: V2) {
    forall l, t, s :: LinkV2(v, l, t) && LinkV2(v, l, s) ==> t == s
  }

  lemma SameLinksSameV1(a: V1, b: V1)
    requires a.tools == b.tools && a.levels.Keys == b.levels.Keys
    requires forall l :: l in a.levels ==> a.levels[l].row == b.levels[l].row
    ensures a == b <==> forall l, t :: LinkV1(a, l, t) <==> LinkV1(b, l, t)
  {
    if forall l, t :: LinkV1(a, l, t) <==> LinkV1(b, l, t) {
      forall l | l in a.levels ensures a.levels[l] == b.levels[l] {
        var x, y := a.levels[l].unlocksTool, b.levels[l].unlocksTool;
        if x.Some? { assert LinkV1(a, l, x.value); }
        if y.Some? { assert LinkV1(b, l, y.value); }
      }
      assert a.levels == b.levels;
    }
  }

  lemma SameLinksSameV2(a: V2, b: V2)
    requires a.levels == b.levels && a.tools.Keys == b.tools.Keys
    requires forall t :: t in a.tools ==> DownTool(a.tools[t]) == DownTool(b.tools[t])
    ensures a == b <==> forall l, t :: LinkV2(a, l, t) <==> LinkV2(b, l, t)
  {
    if forall l, t :: LinkV2(a, l, t) <==> LinkV2(b, l, t) {
      forall t | t in a.tools ensures a.tools[t] == b.tools[t] {
        var x, y := a.tools[t].unlocksAt, b.tools[t].unlocksAt;
        if x.Some? { assert LinkV2(a, x.value, t); }
        if y.Some? { assert LinkV2(b, y.value, t); }
      }
      assert a.tools == b.tools;
    }
  }

  /** Up then down restores the database iff no two levels shared a tool. */
  lemma UpDown(v1: V1, v2: V2, back: V1)
    requires ValidV1(v1) && ValidV2(v2) && IsUp(v1, v2) && IsDown(v2, back)
    ensures back == v1 <==> ToolsUnshared(v1)
  {
    UpLinks(v1, v2);
    DownLinks(v2, back);
    assert back.tools == v1.tools;
    SameLinksSameV1(back, v1);
    if ToolsUnshared(v1) {
      forall l, t | LinkV1(v1, l, t) ensures LinkV1(back, l, t) {
        var k :| LinkV2(v2, k, t);
        var s :| LinkV1(back, l, s);
      }
    }
    if back == v1 {
      forall l, k, t | LinkV1(v1, l, t) && LinkV1(v1, k, t) ensures l == k {
        assert LinkV2(v2, l, t) && LinkV2(v2, k, t);
      }
    }
  }

  /** Down then up restores the database iff no level was named by two tools. */
  lemma DownUp(v2: V2, v1: V1, back: V2)
    requires ValidV2(v2) && ValidV1(v1) && IsDown(v2, v1) && IsUp(v1, back)
    ensures back == v2 <==> LevelsUnshared(v2)
  {
    DownLinks(v2, v1);
    UpLinks(v1, back);
    assert back.levels == v2.levels;
    SameLinksSameV2(back, v2);
    if LevelsUnshared(v2) {
      forall l, t | LinkV2(v2, l, t) ensures LinkV2(back, l, t) {
        var s :| LinkV1(v1, l, s);
        var k :| LinkV2(back, k, t);
      }
    }
    if back == v2 {
      forall l, t, s | LinkV2(v2, l, t) && LinkV2(v2, l, s) ensures t == s {
        assert LinkV1(v1, l, t) && LinkV1(v1, l, s);
      }
    }
  }

  /** Neither direction touches what a level or a tool says. */
  lemma UpKeepsContent(v1: V1, v2: V2)
    requires IsUp(v1, v2)
    ensures v2.levels.Keys == v1.levels.Keys && forall l | l in v1.levels :: v2.levels[l] == v1.levels[l].row
    ensures v2.tools.Keys == v1.tools.Keys && forall t | t in v1.tools :: SameTool(v1.tools[t], v2.tools[t])
  {
  }

  lemma DownKeepsContent(v2: V2, v1: V1)
    requires IsDown(v2, v1)
    ensures v1.levels.Keys == v2.levels.Keys && forall l | l in v2.levels :: v1.levels[l].row == v2.levels[l]
    ensures v1.tools.Keys == v2.tools.Keys && forall t | t in v2.tools :: SameTool(v1.tools[t], v2.tools[t])
  {
  }

  predicate SameTool(a: ToolV1, b: Tool) {
    a.kind == b.kind && a.title == b.title && a.description == b.description && a.content == b.content
  }
}
