/** The seed loader: wipe the content tables, reset their counters, and insert
    levels, hints and tools in one transaction, resolving each tool's symbolic
    level key to the id its level was given. */
module Seed {
  import opened Schema
  import opened Operations
  import opened Hints

  datatype SeedLevel = SeedLevel(key: string, orderIndex: int, title: string, description: string,
                                 flag: string, hints: seq<string>)

  datatype SeedTool = SeedTool(kind: string, title: string, description: string, content: string,
                               unlocksAt: Option<string>)

  datatype SeedFile = SeedFile(tools: seq<SeedTool>, levels: seq<SeedLevel>)

  // ---------------------------------------------------------------------------
  // What a seed must satisfy

  predicate GoodKeys(levels: seq<SeedLevel>) {
    && (forall i :: 0 <= i < |levels| ==> levels[i].key != "")
    && (forall i, j :: 0 <= i < j < |levels| ==> levels[i].key != levels[j].key)
  }

  predicate GoodOrder(levels: seq<SeedLevel>) {
    forall i, j :: 0 <= i < j < |levels| ==> levels[i].orderIndex != levels[j].orderIndex
  }

  predicate HasKey(levels: seq<SeedLevel>, key: string) {
    exists i :: 0 <= i < |levels| && levels[i].key == key
  }

  /** An absent or empty key ties the tool to no level. */
  predicate GoodTool(levels: seq<SeedLevel>, tool: SeedTool) {
    tool.unlocksAt.Some? && tool.unlocksAt.value != "" ==> HasKey(levels, tool.unlocksAt.value)
  }

  predicate Loadable(seed: SeedFile) {
    && GoodKeys(seed.levels)
    && GoodOrder(seed.levels)
    && forall j :: 0 <= j < |seed.tools| ==> GoodTool(seed.levels, seed.tools[j])
  }

  // ---------------------------------------------------------------------------
  // What loading does

  /** Progress cascades off the deleted levels. */
  function Wipe(db: Db): Db {
    db.(hints := map[], tools := map[], levels := map[], progress := map[],
        hintSeq := 0, toolSeq := 0, levelSeq := 0)
  }

  function LevelRow(l: SeedLevel): Level {
    Level(l.orderIndex, l.title, l.description, l.flag)
  }

  function InsertLevel(db: Db, row: Level): Db {
    db.(levels := db.levels[LevelId(db.levelSeq + 1) := row], levelSeq := db.levelSeq + 1)
  }

  function AddLevel(db: Db, l: SeedLevel): Db {
    AddHints(InsertLevel(db, LevelRow(l)), LevelId(db.levelSeq + 1), l.hints)
  }

  function AddLevels(db: Db, levels: seq<SeedLevel>): Db {
    if levels == [] then db else AddLevel(AddLevels(db, levels[..|levels| - 1]), levels[|levels| - 1])
  }

  lemma AddLevelsNext(db: Db, levels: seq<SeedLevel>, i: nat)
    requires i < |levels|
    ensures levels[..i + 1] == levels[..i] + [levels[i]]
    ensures AddLevels(db, levels[..i + 1]) == AddLevel(AddLevels(db, levels[..i]), levels[i])
  {
    assert levels[..i + 1][..i] == levels[..i];
  }

  /** The id the level with this key was given: its 1-based position. */
  function Resolve(levels: seq<SeedLevel>, key: string): Option<LevelId> {
    if levels == [] then None
    else if levels[|levels| - 1].key == key then Some(LevelId(|levels|))
    else Resolve(levels[..|levels| - 1], key)
  }

  function ToolRow(levels: seq<SeedLevel>, t: SeedTool): Tool {
    Tool(t.kind, t.title, t.description, t.content,
         if t.unlocksAt.Some? && t.unlocksAt.value != "" then Resolve(levels, t.unlocksAt.value) else None)
  }

  function AddTools(db: Db, levels: seq<SeedLevel>, tools: seq<SeedTool>): Db {
    if tools == [] then db
    else InsertTool(AddTools(db, levels, tools[..|tools| - 1]), ToolRow(levels, tools[|tools| - 1]))
  }

  function Loaded(db: Db, seed: SeedFile): Db {
    AddTools(AddLevels(Wipe(db), seed.levels), seed.levels, seed.tools)
  }

  /** All or nothing. */
  function Load(db: Db, seed: SeedFile): Reply<()> {
    if Loadable(seed) then Reply(Loaded(db, seed), Ok(())) else Reply(db, Err(Failed))
  }

  // ---------------------------------------------------------------------------
  // What the result holds

  lemma {:induction false} ResolveMeans(levels: seq<SeedLevel>, key: string)
    requires GoodKeys(levels)
    ensures Resolve(levels, key).Some? <==> HasKey(levels, key)
    ensures forall i :: 0 <= i < |levels| && levels[i].key == key ==> Resolve(levels, key) == Some(LevelId(i + 1))
    ensures Resolve(levels, key).Some? ==> 1 <= Resolve(levels, key).value.n <= |levels|
  {
    if levels != [] && levels[|levels| - 1].key != key {
      var init := levels[..|levels| - 1];
      ResolveMeans(init, key);
      if HasKey(levels, key) {
        var i :| 0 <= i < |levels| && levels[i].key == key;
        assert init[i].key == key;
      }
    }
  }

  /** Level i has id i + 1 and its own row, and there is no other level. */
  ghost predicate RowsLoaded(levels: map<LevelId, Level>, last: nat, from: seq<SeedLevel>) {
    && last == |from|
    && (forall l :: l in levels <==> 1 <= l.n <= |from|)
    && (forall l :: l in levels ==> levels[l] == LevelRow(from[l.n - 1]))
  }

  ghost predicate HintsSound(db: Db) {
    && UniqueHintOrder(db.hints)
    && HintIds(db.hints, db.hintSeq)
    && HintRefs(db.hints, db.levels)
  }

  /** Every level's hints are numbered 1 to m and read back in the order they were
      written. */
  ghost predicate HintsLoaded(db: Db, from: seq<SeedLevel>)
    requires UniqueHintOrder(db.hints)
  {
    forall l: LevelId :: 1 <= l.n <= |from| ==>
      && NumberedFromOne(db.hints, l, from[l.n - 1].hints)
      && Texts(HintsForLevel(db, l)) == from[l.n - 1].hints
  }

  ghost predicate LevelsLoaded(db: Db, from: seq<SeedLevel>) {
    RowsLoaded(db.levels, db.levelSeq, from) && HintsSound(db) && HintsLoaded(db, from)
  }

  lemma AddLevelRows(db: Db, from: seq<SeedLevel>, l: SeedLevel)
    requires RowsLoaded(db.levels, db.levelSeq, from)
    ensures var db' := AddLevel(db, l);
      RowsLoaded(db'.levels, db'.levelSeq, from + [l])
  {
    AddHintsFrame(InsertLevel(db, LevelRow(l)), LevelId(db.levelSeq + 1), l.hints);
  }

  lemma AddLevelHints(db: Db, from: seq<SeedLevel>, l: SeedLevel)
    requires RowsLoaded(db.levels, db.levelSeq, from) && HintsSound(db)
    ensures HintsSound(AddLevel(db, l))
    ensures Texts(HintsForLevel(AddLevel(db, l), LevelId(db.levelSeq + 1))) == l.hints
    ensures forall k :: k in db.levels ==> HintsForLevel(AddLevel(db, l), k) == HintsForLevel(db, k)
  {
    var id := LevelId(db.levelSeq + 1);
    var mid, db' := InsertLevel(db, LevelRow(l)), AddLevel(db, l);
    assert Bare(mid.hints, id);
    AddHintsFrame(mid, id, l.hints);
    AddHintsEffect(mid, id, l.hints);
    AddThenRead(mid, id, l.hints);
    assert HintRefs(db'.hints, db'.levels);
    forall k | k in db.levels ensures HintsForLevel(db', k) == HintsForLevel(db, k) {
      AddHintsOthers(mid, id, l.hints, k);
    }
  }

  lemma AddLevelNumbers(db: Db, from: seq<SeedLevel>, l: SeedLevel)
    requires RowsLoaded(db.levels, db.levelSeq, from) && HintsSound(db)
    ensures NumberedFromOne(AddLevel(db, l).hints, LevelId(db.levelSeq + 1), l.hints)
    ensures forall k, texts :: k in db.levels && NumberedFromOne(db.hints, k, texts) ==>
              NumberedFromOne(AddLevel(db, l).hints, k, texts)
  {
    hide NumberedFromOne;
    hide AddHints;
    var id := LevelId(db.levelSeq + 1);
    var mid, db' := InsertLevel(db, LevelRow(l)), AddLevel(db, l);
    assert Bare(mid.hints, id);
    AddHintsEffect(mid, id, l.hints);
    AddHintsNumbered(mid, id, l.hints);
    forall k, texts | k in db.levels && NumberedFromOne(db.hints, k, texts)
      ensures NumberedFromOne(db'.hints, k, texts)
    {
      NumberedKept(db.hints, db'.hints, k, texts);
    }
  }

  lemma AddLevelStep(db: Db, from: seq<SeedLevel>, l: SeedLevel)
    requires LevelsLoaded(db, from)
    ensures LevelsLoaded(AddLevel(db, l), from + [l])
  {
    hide NumberedFromOne;
    hide AddLevel;
    hide Texts;
    AddLevelRows(db, from, l);
    AddLevelHints(db, from, l);
    AddLevelNumbers(db, from, l);
    var db', all := AddLevel(db, l), from + [l];
    forall k: LevelId | 1 <= k.n <= |all|
      ensures NumberedFromOne(db'.hints, k, all[k.n - 1].hints)
      ensures Texts(HintsForLevel(db', k)) == all[k.n - 1].hints
    {
      if k.n <= |from| {
        assert k in db.levels;
      } else {
        assert k == LevelId(db.levelSeq + 1);
      }
    }
  }

  lemma {:induction false} AddLevelsEffect(db: Db, levels: seq<SeedLevel>)
    requires LevelsLoaded(db, [])
    ensures LevelsLoaded(AddLevels(db, levels), levels)
  {
    hide LevelsLoaded;
    hide AddLevel;
    if levels != [] {
      var init := levels[..|levels| - 1];
      AddLevelsEffect(db, init);
      AddLevelStep(AddLevels(db, init), init, levels[|levels| - 1]);
      assert levels == init + [levels[|levels| - 1]];
    }
  }

  lemma AddLevelsFrame(db: Db, levels: seq<SeedLevel>)
    ensures var r := AddLevels(db, levels);
      r == db.(levels := r.levels, hints := r.hints, levelSeq := r.levelSeq, hintSeq := r.hintSeq)
  {
    if levels != [] {
      var init, l := AddLevels(db, levels[..|levels| - 1]), levels[|levels| - 1];
      AddLevelsFrame(db, levels[..|levels| - 1]);
      AddHintsFrame(InsertLevel(init, LevelRow(l)), LevelId(init.levelSeq + 1), l.hints);
    }
  }

  ghost predicate ToolsLoaded(db: Db, levels: seq<SeedLevel>, tools: seq<SeedTool>) {
    && db.toolSeq == |tools|
    && (forall t :: t in db.tools <==> 1 <= t.n <= |tools|)
    && (forall t :: t in db.tools ==> db.tools[t] == ToolRow(levels, tools[t.n - 1]))
  }

  lemma {:induction false} AddToolsEffect(db: Db, levels: seq<SeedLevel>, tools: seq<SeedTool>)
    requires db.tools == map[] && db.toolSeq == 0
    ensures ToolsLoaded(AddTools(db, levels, tools), levels, tools)
    ensures var r := AddTools(db, levels, tools);
      r == db.(tools := r.tools, toolSeq := r.toolSeq)
  {
    if tools != [] {
      AddToolsEffect(db, levels, tools[..|tools| - 1]);
    }
  }

  lemma RowsLoadedValid(levels: map<LevelId, Level>, last: nat, from: seq<SeedLevel>)
    requires RowsLoaded(levels, last, from) && GoodOrder(from)
    ensures LevelIds(levels, last) && UniqueOrder(levels)
  {
    forall a, b | a in levels && b in levels && levels[a].orderIndex == levels[b].orderIndex
      ensures a == b
    {
      assert from[a.n - 1].orderIndex == from[b.n - 1].orderIndex;
    }
  }

  lemma ToolsLoadedValid(db: Db, levels: seq<SeedLevel>, tools: seq<SeedTool>)
    requires RowsLoaded(db.levels, db.levelSeq, levels) && ToolsLoaded(db, levels, tools) && GoodKeys(levels)
    ensures ToolIds(db.tools, db.toolSeq) && ToolRefs(db.tools, db.levels)
  {
    forall t | t in db.tools && db.tools[t].unlocksAt.Some? ensures db.tools[t].unlocksAt.value in db.levels {
      ResolveMeans(levels, tools[t.n - 1].unlocksAt.value);
    }
  }

  lemma LoadedContent(db: Db, seed: SeedFile)
    ensures var r := Loaded(db, seed);
      && r == db.(levels := r.levels, hints := r.hints, tools := r.tools, progress := map[],
                  levelSeq := r.levelSeq, hintSeq := r.hintSeq, toolSeq := r.toolSeq)
      && LevelsLoaded(r, seed.levels)
      && ToolsLoaded(r, seed.levels, seed.tools)
  {
    var mid, r := AddLevels(Wipe(db), seed.levels), Loaded(db, seed);
    AddLevelsEffect(Wipe(db), seed.levels);
    AddLevelsFrame(Wipe(db), seed.levels);
    AddToolsEffect(mid, seed.levels, seed.tools);
    SameHints(mid, r, seed.levels);
  }

  lemma SameHints(mid: Db, r: Db, from: seq<SeedLevel>)
    requires LevelsLoaded(mid, from) && r == mid.(tools := r.tools, toolSeq := r.toolSeq)
    ensures LevelsLoaded(r, from)
  {
    forall l: LevelId ensures HintsForLevel(r, l) == HintsForLevel(mid, l) {
    }
  }

  /** A loadable seed replaces all content: level i gets id i (1-based) and its
      hints in order, tool j gets id j and points at the level its key names,
      nobody has solved anything, and accounts and sessions stay. */
  lemma LoadTheorem(db: Db, seed: SeedFile)
    requires Valid(db) && Loadable(seed)
    ensures var r := Loaded(db, seed);
      && Valid(r)
      && r.users == db.users && r.sessions == db.sessions && r.userSeq == db.userSeq && r.progress == map[]
      && LevelsLoaded(r, seed.levels)
      && ToolsLoaded(r, seed.levels, seed.tools)
  {
    var r := Loaded(db, seed);
    LoadedContent(db, seed);
    RowsLoadedValid(r.levels, r.levelSeq, seed.levels);
    ToolsLoadedValid(r, seed.levels, seed.tools);
  }

  /** Every tool with a key is unlocked by the one level carrying that key. */
  lemma ToolPointsAtItsKey(db: Db, seed: SeedFile, j: nat, i: nat)
    requires Valid(db) && Loadable(seed) && j < |seed.tools| && i < |seed.levels|
    requires seed.tools[j].unlocksAt == Some(seed.levels[i].key)
    ensures ToolId(j + 1) in Loaded(db, seed).tools
    ensures Loaded(db, seed).tools[ToolId(j + 1)].unlocksAt == Some(LevelId(i + 1))
    ensures LevelId(i + 1) in Loaded(db, seed).levels
    ensures Loaded(db, seed).levels[LevelId(i + 1)] == LevelRow(seed.levels[i])
  {
    hide Valid;
    hide Loaded;
    hide HintsLoaded;
    hide HintsSound;
    LoadTheorem(db, seed);
    ResolveMeans(seed.levels, seed.levels[i].key);
  }
}
