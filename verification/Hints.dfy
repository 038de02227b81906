/** A level's hints: what replacing them stores, and what reading them returns. */
module Hints {
  import opened Ranking
  import opened Schema
  import opened Operations

  datatype HintItem = HintItem(id: HintId, text: string)

  function HintOrder(hints: map<HintId, Hint>, l: LevelId): Order<HintId> {
    map h | h in hints && hints[h].level == l :: hints[h].orderIndex
  }

  lemma HintOrderInjective(hints: map<HintId, Hint>, l: LevelId)
    requires UniqueHintOrder(hints)
    ensures Injective(HintOrder(hints, l))
  {
  }

  /** The level's hints, id and text, by increasing number. */
  ghost function HintsForLevel(db: Db, l: LevelId): seq<HintItem>
    requires UniqueHintOrder(db.hints)
  {
    HintOrderInjective(db.hints, l);
    ItemsAt(db.hints, Sequence(HintOrder(db.hints, l)))
  }

  function ItemsAt(hints: map<HintId, Hint>, ids: seq<HintId>): (items: seq<HintItem>)
    ensures |items| == |ids|
  {
    seq(|ids|, i requires 0 <= i < |ids| => ItemAt(hints, ids[i]))
  }

  function ItemAt(hints: map<HintId, Hint>, id: HintId): HintItem {
    HintItem(id, if id in hints then hints[id].text else "")
  }

  /** Every hint of the level once, with its text, by number that never falls. */
  ghost predicate ListsHints(hints: map<HintId, Hint>, l: LevelId, items: seq<HintItem>) {
    && (forall i :: 0 <= i < |items| ==>
          && items[i].id in hints && hints[items[i].id].level == l
          && items[i].text == hints[items[i].id].text)
    && (forall h :: h in hints && hints[h].level == l ==> exists i :: 0 <= i < |items| && items[i].id == h)
    && (forall i, j :: 0 <= i < j < |items| ==>
          && items[i].id != items[j].id
          && hints[items[i].id].orderIndex <= hints[items[j].id].orderIndex)
  }

  lemma ItemsList(hints: map<HintId, Hint>, l: LevelId, ids: seq<HintId>)
    requires Listing(HintOrder(hints, l), ids)
    ensures ListsHints(hints, l, ItemsAt(hints, ids))
  {
    var items := ItemsAt(hints, ids);
    assert forall i :: 0 <= i < |items| ==> ids[i] in ids && items[i].id == ids[i];
    forall h | h in hints && hints[h].level == l ensures exists i :: 0 <= i < |items| && items[i].id == h {
      assert h in ids;
      var i :| 0 <= i < |ids| && ids[i] == h;
      assert items[i].id == h;
    }
  }

  function Texts(items: seq<HintItem>): seq<string> {
    seq(|items|, i requires 0 <= i < |items| => items[i].text)
  }

  /** h is one of the m ids that follow last. */
  predicate Follows(last: nat, m: nat, h: HintId) {
    last < h.n <= last + m
  }

  /** The m texts get the ids right after the counter, and numbers 1 to m. */
  ghost predicate HintsAdded(db: Db, id: LevelId, texts: seq<string>, hints: map<HintId, Hint>) {
    && (forall h :: h in hints <==> h in db.hints || Follows(db.hintSeq, |texts|, h))
    && (forall h :: h in db.hints ==> h in hints && hints[h] == db.hints[h])
    && (forall h :: Follows(db.hintSeq, |texts|, h) ==>
          h in hints && hints[h] == Hint(id, h.n - db.hintSeq, texts[h.n - db.hintSeq - 1]))
  }

  lemma AddHintsFrame(db: Db, id: LevelId, texts: seq<string>)
    ensures AddHints(db, id, texts)
         == db.(hints := AddHints(db, id, texts).hints, hintSeq := db.hintSeq + |texts|)
  {
  }

  lemma {:induction false} AddHintsEffect(db: Db, id: LevelId, texts: seq<string>)
    requires HintIds(db.hints, db.hintSeq)
    ensures HintsAdded(db, id, texts, AddHints(db, id, texts).hints)
    ensures HintIds(AddHints(db, id, texts).hints, AddHints(db, id, texts).hintSeq)
  {
    AddHintsFrame(db, id, texts);
    if texts != [] {
      var init := texts[..|texts| - 1];
      AddHintsEffect(db, id, init);
      AddHintsFrame(db, id, init);
      var last := HintId(db.hintSeq + |texts|);
      forall h ensures Follows(db.hintSeq, |texts|, h) <==> Follows(db.hintSeq, |init|, h) || h == last {
      }
    }
  }

  /** Adding hints to a level that has none. */
  ghost predicate Bare(hints: map<HintId, Hint>, id: LevelId) {
    forall h :: h in hints ==> hints[h].level != id
  }

  ghost predicate HasNumber(hints: map<HintId, Hint>, l: LevelId, k: int) {
    exists h :: h in hints && hints[h].level == l && hints[h].orderIndex == k
  }

  /** The level's hints carry exactly the numbers 1 to m, and number k the k-th text. */
  ghost predicate NumberedFromOne(hints: map<HintId, Hint>, l: LevelId, texts: seq<string>) {
    && (forall h | h in hints && hints[h].level == l ::
          1 <= hints[h].orderIndex <= |texts| && hints[h].text == texts[hints[h].orderIndex - 1])
    && (forall k | 1 <= k <= |texts| :: HasNumber(hints, l, k))
  }

  lemma AddHintsNumbered(db: Db, id: LevelId, texts: seq<string>)
    requires HintIds(db.hints, db.hintSeq) && Bare(db.hints, id)
    ensures NumberedFromOne(AddHints(db, id, texts).hints, id, texts)
  {
    AddHintsEffect(db, id, texts);
    var hints := AddHints(db, id, texts).hints;
    forall k | 1 <= k <= |texts| ensures HasNumber(hints, id, k) {
      assert Follows(db.hintSeq, |texts|, HintId(db.hintSeq + k));
    }
  }

  lemma NumberedKept(hints: map<HintId, Hint>, hints': map<HintId, Hint>, l: LevelId, texts: seq<string>)
    requires NumberedFromOne(hints, l, texts)
    requires forall h | h in hints && hints[h].level == l :: h in hints' && hints'[h] == hints[h]
    requires forall h | h in hints' && hints'[h].level == l :: h in hints && hints'[h] == hints[h]
    ensures NumberedFromOne(hints', l, texts)
  {
    forall k | 1 <= k <= |texts| ensures HasNumber(hints', l, k) {
      assert HasNumber(hints, l, k);
    }
  }

  lemma AddHintsUnique(db: Db, id: LevelId, texts: seq<string>)
    requires HintIds(db.hints, db.hintSeq) && UniqueHintOrder(db.hints) && Bare(db.hints, id)
    ensures UniqueHintOrder(AddHints(db, id, texts).hints)
  {
    AddHintsEffect(db, id, texts);
  }

  /** Reading back hints just added to a bare level gives the texts, in order. */
  lemma AddThenRead(db: Db, id: LevelId, texts: seq<string>)
    requires HintIds(db.hints, db.hintSeq) && UniqueHintOrder(db.hints) && Bare(db.hints, id)
    ensures UniqueHintOrder(AddHints(db, id, texts).hints)
    ensures Texts(HintsForLevel(AddHints(db, id, texts), id)) == texts
  {
    AddHintsEffect(db, id, texts);
    AddHintsUnique(db, id, texts);
    var hints := AddHints(db, id, texts).hints;
    NewIdsSorted(db, id, texts, hints);
    HintOrderInjective(hints, id);
    SequenceUnique(HintOrder(hints, id), NewIds(db.hintSeq, |texts|));
    NewTexts(db, id, texts, hints);
  }

  lemma NewTexts(db: Db, id: LevelId, texts: seq<string>, hints: map<HintId, Hint>)
    requires HintsAdded(db, id, texts, hints)
    ensures Texts(ItemsAt(hints, NewIds(db.hintSeq, |texts|))) == texts
  {
    var s := NewIds(db.hintSeq, |texts|);
    forall i | 0 <= i < |texts| ensures ItemAt(hints, s[i]).text == texts[i] {
      assert Follows(db.hintSeq, |texts|, s[i]);
    }
  }

  lemma AddHintsOthers(db: Db, id: LevelId, texts: seq<string>, k: LevelId)
    requires HintIds(db.hints, db.hintSeq) && UniqueHintOrder(db.hints) && Bare(db.hints, id) && k != id
    ensures UniqueHintOrder(AddHints(db, id, texts).hints)
    ensures HintsForLevel(AddHints(db, id, texts), k) == HintsForLevel(db, k)
  {
    AddHintsEffect(db, id, texts);
    AddHintsUnique(db, id, texts);
    SameHintsRead(db, AddHints(db, id, texts), k);
  }

  function NewIds(last: nat, m: nat): seq<HintId> {
    seq(m, i requires 0 <= i < m => HintId(last + 1 + i))
  }

  lemma NewIdsSorted(db: Db, id: LevelId, texts: seq<string>, hints: map<HintId, Hint>)
    requires HintsAdded(db, id, texts, hints) && Bare(db.hints, id)
    ensures Sorted(HintOrder(hints, id), NewIds(db.hintSeq, |texts|))
  {
    var ord, s := HintOrder(hints, id), NewIds(db.hintSeq, |texts|);
    forall i | 0 <= i < |s| ensures s[i] in ord && ord[s[i]] == i + 1 {
      assert Follows(db.hintSeq, |texts|, s[i]);
    }
    forall h | h in ord ensures h in s {
      assert Follows(db.hintSeq, |texts|, h);
      assert s[h.n - db.hintSeq - 1] == h;
    }
    SameSize(ord, s);
  }

  lemma ReplaceHintsKeepsValid(db: Db, id: LevelId, texts: seq<string>)
    requires Valid(db)
    ensures Valid(ReplaceHints(db, id, texts).db)
  {
    if id in db.levels {
      var cleared := ClearHints(db, id);
      AddHintsFrame(cleared, id, texts);
      AddHintsEffect(cleared, id, texts);
      AddHintsUnique(cleared, id, texts);
    }
  }

  /** One call adds, removes and reorders: afterwards the level's hints are numbered
      from 1, read back as exactly the given texts, and every other level reads as before. */
  lemma ReplaceThenRead(db: Db, id: LevelId, texts: seq<string>)
    requires Valid(db)
    ensures UniqueHintOrder(ReplaceHints(db, id, texts).db.hints)
    ensures ReplaceHints(db, id, texts).result.Ok? <==> id in db.levels
    ensures id in db.levels ==> Texts(HintsForLevel(ReplaceHints(db, id, texts).db, id)) == texts
    ensures id in db.levels ==> NumberedFromOne(ReplaceHints(db, id, texts).db.hints, id, texts)
    ensures forall l :: l != id ==> HintsForLevel(ReplaceHints(db, id, texts).db, l) == HintsForLevel(db, l)
  {
    ReplaceHintsKeepsValid(db, id, texts);
    if id in db.levels {
      var cleared, db' := ClearHints(db, id), ReplaceHints(db, id, texts).db;
      AddThenRead(cleared, id, texts);
      AddHintsNumbered(cleared, id, texts);
      AddHintsEffect(cleared, id, texts);
      forall l | l != id ensures HintsForLevel(db', l) == HintsForLevel(db, l) {
        SameHintsRead(db, db', l);
      }
    }
  }

  lemma SameHintsRead(db: Db, db': Db, l: LevelId)
    requires UniqueHintOrder(db.hints) && UniqueHintOrder(db'.hints)
    requires forall h | h in db.hints && db.hints[h].level == l :: h in db'.hints && db'.hints[h] == db.hints[h]
    requires forall h | h in db'.hints && db'.hints[h].level == l :: h in db.hints && db'.hints[h] == db.hints[h]
    ensures HintsForLevel(db', l) == HintsForLevel(db, l)
  {
    assert HintOrder(db'.hints, l) == HintOrder(db.hints, l);
    HintOrderInjective(db.hints, l);
    SameItems(db.hints, db'.hints, HintOrder(db.hints, l), Sequence(HintOrder(db.hints, l)));
  }

  lemma SameItems(hints: map<HintId, Hint>, hints': map<HintId, Hint>, ord: Order<HintId>, s: seq<HintId>)
    requires Sorted(ord, s)
    requires forall h :: h in ord ==> ItemAt(hints, h) == ItemAt(hints', h)
    ensures ItemsAt(hints, s) == ItemsAt(hints', s)
  {
    forall i | 0 <= i < |s| ensures ItemAt(hints, s[i]) == ItemAt(hints', s[i]) {
      assert s[i] in s;
    }
  }
}
