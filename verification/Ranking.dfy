/** Positions in an ordered table.

    A query that sorts by a UNIQUE column is described by a map from row ids to
    the column's values. The module relates the two ways the program speaks of
    "the first k rows": the rows ORDER BY ... LIMIT k returns, and the rows
    whose rank, counted by COUNT(*) WHERE column <= x, is at most k. */
module Ranking {
  import opened Sets

  type Order<K> = map<K, int>

  ghost predicate Injective<K(!new)>(ord: Order<K>) {
    forall a, b {:trigger ord[a], ord[b]} :: a in ord && b in ord && ord[a] == ord[b] ==> a == b
  }

  function Min(a: int, b: int): int {
    if a <= b then a else b
  }

  /** The rows at or below a value: what COUNT(*) WHERE column <= x counts. */
  function UpTo<K(!new)>(ord: Order<K>, x: int): set<K> {
    set l | l in ord && ord[l] <= x
  }

  function Rank<K(!new)>(ord: Order<K>, x: int): nat {
    |UpTo(ord, x)|
  }

  /** A set of rows that contains everything ordered before any of its members. */
  ghost predicate Initial<K(!new)>(ord: Order<K>, p: set<K>) {
    && p <= ord.Keys
    && forall a, b {:trigger a in p, b in p} :: a in p && b in ord && ord[b] <= ord[a] ==> b in p
  }

  ghost predicate IsLast<K(!new)>(ord: Order<K>, m: K) {
    m in ord && forall x :: x in ord ==> ord[x] <= ord[m]
  }

  lemma {:induction false} LastExists<K(!new)>(ord: Order<K>)
    requires |ord| > 0
    ensures exists m :: IsLast(ord, m)
    decreases |ord|
  {
    var a := Pick(ord.Keys);
    var rest := ord - {a};
    assert rest.Keys == ord.Keys - {a};
    if |rest| == 0 {
      assert forall x :: x in ord ==> x in {a} + rest.Keys;
      assert IsLast(ord, a);
    } else {
      LastExists(rest);
      var m :| IsLast(rest, m);
      assert forall x :: x in ord ==> x == a || x in rest;
      assert IsLast(ord, if ord[m] <= ord[a] then a else m);
    }
  }

  /** The rows in ORDER BY order. */
  ghost function Sequence<K(!new)>(ord: Order<K>): (s: seq<K>)
    requires Injective(ord)
    ensures Sorted(ord, s)
    decreases |ord|
  {
    if |ord| == 0 then []
    else
      LastExists(ord);
      var m :| IsLast(ord, m);
      var t := Sequence(Without(ord, m));
      SortedSnoc(ord, t, m);
      t + [m]
  }

  function Without<K(!new)>(ord: Order<K>, m: K): (r: Order<K>)
    ensures r.Keys == ord.Keys - {m}
    ensures forall x :: x in r ==> r[x] == ord[x]
    ensures m in ord ==> |r| == |ord| - 1
  {
    assert (ord - {m}).Keys == ord.Keys - {m};
    ord - {m}
  }

  lemma SortedSnoc<K(!new)>(ord: Order<K>, t: seq<K>, m: K)
    requires Injective(ord) && IsLast(ord, m) && Sorted(Without(ord, m), t)
    ensures Sorted(ord, t + [m])
  {
    var s := t + [m];
    forall x ensures x in s <==> x in ord {
      assert x in s <==> x in t || x == m;
    }
    forall i, j | 0 <= i < j < |s| ensures s[i] in ord && s[j] in ord && ord[s[i]] < ord[s[j]] {
      assert s[i] in t && t[i] == s[i];
      if j < |t| {
        assert t[j] == s[j] && s[j] in t;
      }
    }
  }

  /** s lists every row once, by strictly increasing value. */
  ghost predicate Sorted<K(!new)>(ord: Order<K>, s: seq<K>) {
    && |s| == |ord|
    && (forall x :: x in s <==> x in ord)
    && (forall i, j :: 0 <= i < j < |s| ==> ord[s[i]] < ord[s[j]])
  }

  /** The rows whose rank is at most k: what the counting gate lets through. */
  function First<K(!new)>(ord: Order<K>, k: int): set<K> {
    set l | l in ord && Rank(ord, ord[l]) <= k
  }

  /** How many rows LIMIT k returns (a k of 0 or less returns none). */
  function Limit<K(!new)>(ord: Order<K>, k: int): nat {
    if k <= 0 then 0 else Min(k, |ord|)
  }

  /** The gate and ORDER BY ... LIMIT k agree. */
  lemma FirstIsLimit<K(!new)>(ord: Order<K>, k: int)
    requires Injective(ord)
    ensures First(ord, k) == set x | x in Sequence(ord)[..Limit(ord, k)]
  {
    var s := Sequence(ord);
    var n := Limit(ord, k);
    forall l ensures l in First(ord, k) <==> l in s[..n] {
      if l in ord {
        assert l in s;
        var i :| 0 <= i < |s| && s[i] == l;
        RankOfPosition(ord, s, i);
        PositionInTake(ord, s, n, i);
      }
    }
  }

  lemma PositionInTake<K(!new)>(ord: Order<K>, s: seq<K>, n: nat, i: nat)
    requires Sorted(ord, s) && n <= |s| && i < |s|
    ensures s[i] in s[..n] <==> i < n
  {
    if i < n {
      assert s[..n][i] == s[i];
    }
    if s[i] in s[..n] {
      var j :| 0 <= j < n && s[j] == s[i];
      SortedDistinct(ord, s);
    }
  }

  /** The row at 0-based position i has rank i + 1. */
  lemma RankOfPosition<K(!new)>(ord: Order<K>, s: seq<K>, i: nat)
    requires Sorted(ord, s) && i < |s|
    ensures s[i] in ord && Rank(ord, ord[s[i]]) == i + 1
  {
    assert s[i] in s;
    var t := s[..i + 1];
    SortedDistinct(ord, s);
    DistinctSize(t);
    forall x ensures x in UpTo(ord, ord[s[i]]) <==> x in t {
      if x in ord {
        assert x in s;
        var j :| 0 <= j < |s| && s[j] == x;
        PositionInTake(ord, s, i + 1, j);
        if i < j {
          assert ord[s[i]] < ord[s[j]];
        } else if j < i {
          assert ord[s[j]] < ord[s[i]];
        }
      }
    }
    assert UpTo(ord, ord[s[i]]) == set x | x in t;
  }

  lemma SortedDistinct<K(!new)>(ord: Order<K>, s: seq<K>)
    requires Sorted(ord, s)
    ensures forall i, j :: 0 <= i < j < |s| ==> s[i] != s[j]
  {
    forall i, j | 0 <= i < j < |s| ensures s[i] != s[j] {
      assert s[i] in s && s[j] in s;
      assert ord[s[i]] < ord[s[j]];
    }
  }

  /** A distinct listing of all rows has one entry per row. */
  lemma SameSize<K(!new)>(ord: Order<K>, s: seq<K>)
    requires forall x :: x in s <==> x in ord
    requires forall i, j :: 0 <= i < j < |s| ==> s[i] != s[j]
    ensures |s| == |ord|
  {
    DistinctSize(s);
    assert (set x | x in s) == ord.Keys;
  }

  /** The first n rows of the listing: existing, distinct, and those of rank up to n. */
  lemma TakeFacts<K(!new)>(ord: Order<K>, n: int)
    requires Injective(ord)
    ensures var t := Sequence(ord)[..Limit(ord, n)];
      && (forall i | 0 <= i < |t| :: t[i] in ord)
      && (forall i, j | 0 <= i < j < |t| :: t[i] != t[j])
      && (set x | x in t) == First(ord, n)
  {
    hide First;
    FirstIsLimit(ord, n);
    SortedMembers(ord, Sequence(ord));
    SortedDistinct(ord, Sequence(ord));
    hide Sorted;
    hide Injective;
  }

  lemma FirstSize<K(!new)>(ord: Order<K>, k: int)
    requires Injective(ord)
    ensures First(ord, k) <= ord.Keys && |First(ord, k)| == Limit(ord, k)
  {
    TakeFacts(ord, k);
    DistinctSize(Sequence(ord)[..Limit(ord, k)]);
    hide Sorted;
    hide Rank;
    hide Injective;
  }

  lemma FirstInitial<K(!new)>(ord: Order<K>, k: int)
    ensures Initial(ord, First(ord, k))
  {
    forall a, b | a in First(ord, k) && b in ord && ord[b] <= ord[a]
      ensures b in First(ord, k)
    {
      SubsetSize(UpTo(ord, ord[b]), UpTo(ord, ord[a]));
    }
  }

  lemma FirstFacts<K(!new)>(ord: Order<K>, k: int)
    requires Injective(ord)
    ensures Initial(ord, First(ord, k)) && |First(ord, k)| == Limit(ord, k)
  {
    FirstSize(ord, k);
    FirstInitial(ord, k);
  }

  lemma InitialsNest<K(!new)>(ord: Order<K>, p: set<K>, q: set<K>)
    requires Initial(ord, p) && Initial(ord, q) && |p| <= |q|
    ensures p <= q
  {
    if !(p <= q) {
      var a :| a in p && a !in q;
      forall b | b in q ensures b in p {
        assert ord[b] < ord[a];
      }
      SubsetSize(q, p - {a});
      assert false;
    }
  }

  /** An initial set is determined by its size. */
  lemma FirstUnique<K(!new)>(ord: Order<K>, k: int, p: set<K>)
    requires Injective(ord) && Initial(ord, p) && |p| == Limit(ord, k)
    ensures p == First(ord, k)
  {
    FirstFacts(ord, k);
    InitialsNest(ord, p, First(ord, k));
    InitialsNest(ord, First(ord, k), p);
  }

  lemma FirstMonotone<K(!new)>(ord: Order<K>, j: int, k: int)
    requires Injective(ord) && j <= k
    ensures First(ord, j) <= First(ord, k)
  {
    FirstFacts(ord, j);
    FirstFacts(ord, k);
    InitialsNest(ord, First(ord, j), First(ord, k));
  }

  /** Only one strictly increasing listing exists. */
  lemma SequenceUnique<K(!new)>(ord: Order<K>, s: seq<K>)
    requires Injective(ord) && Sorted(ord, s)
    ensures s == Sequence(ord)
  {
    SortedUnique(ord, s, Sequence(ord));
  }

  lemma SortedMembers<K(!new)>(ord: Order<K>, s: seq<K>)
    requires Sorted(ord, s)
    ensures forall i :: 0 <= i < |s| ==> s[i] in ord
  {
    assert forall i :: 0 <= i < |s| ==> s[i] in s;
  }

  lemma SortedCovers<K(!new)>(ord: Order<K>, s: seq<K>)
    requires Sorted(ord, s)
    ensures forall x :: x in s <==> x in ord
  {
  }

  lemma SortedUnique<K(!new)>(ord: Order<K>, s: seq<K>, q: seq<K>)
    requires Sorted(ord, s) && Sorted(ord, q)
    ensures s == q
  {
    forall i | 0 <= i < |s| ensures s[i] == q[i] {
      assert s[i] in s && s[i] in q;
      var j :| 0 <= j < |q| && q[j] == s[i];
      RankOfPosition(ord, s, i);
      RankOfPosition(ord, q, j);
    }
  }

  // ---------------------------------------------------------------------------
  // ORDER BY a column that need not be UNIQUE

  /** s lists every row once, by value that never falls; ties stand in any order. */
  ghost predicate Listing<K(!new)>(ord: Order<K>, s: seq<K>) {
    && |s| == |ord|
    && (forall x :: x in s <==> x in ord)
    && (forall i, j :: 0 <= i < j < |s| ==> s[i] != s[j] && ord[s[i]] <= ord[s[j]])
  }

  /** On a UNIQUE column there are no ties, so the order is fixed. */
  lemma ListingUnique<K(!new)>(ord: Order<K>, s: seq<K>)
    requires Injective(ord) && Listing(ord, s)
    ensures s == Sequence(ord)
  {
    hide Sequence;
    forall i, j | 0 <= i < j < |s| ensures ord[s[i]] < ord[s[j]] {
      assert s[i] in s && s[j] in s;
    }
    SequenceUnique(ord, s);
  }

  /** s holds the largest rows in order, rest the ones still to come. */
  ghost predicate Taken<K(!new)>(ord: Order<K>, rest: Order<K>, s: seq<K>) {
    && (forall x :: x in rest ==> x in ord && rest[x] == ord[x])
    && (forall x :: x in s <==> x in ord && x !in rest)
    && (forall i, j :: 0 <= i < j < |s| ==> s[i] != s[j] && ord[s[i]] <= ord[s[j]])
    && (forall x, i :: x in rest && 0 <= i < |s| ==> ord[x] <= ord[s[i]])
  }

  lemma LastIsRow<K(!new)>(ord: Order<K>, m: K)
    requires IsLast(ord, m)
    ensures m in ord
  {
  }

  lemma TakenStart<K(!new)>(ord: Order<K>)
    ensures Taken(ord, ord, [])
  {
  }

  lemma TakenStep<K(!new)>(ord: Order<K>, rest: Order<K>, s: seq<K>, m: K)
    requires Taken(ord, rest, s) && IsLast(rest, m)
    ensures Taken(ord, Without(rest, m), [m] + s)
  {
    var s' := [m] + s;
    forall i, j | 0 <= i < j < |s'| ensures s'[i] != s'[j] && ord[s'[i]] <= ord[s'[j]] {
      assert s'[j] == s[j - 1] && s[j - 1] in s;
      if i > 0 {
        assert s'[i] == s[i - 1];
      }
    }
    assert forall x :: x in s' <==> x == m || x in s;
    assert forall i :: 0 <= i < |s'| ==> s'[i] in s';
  }

  lemma TakenAll<K(!new)>(ord: Order<K>, rest: Order<K>, s: seq<K>)
    requires Taken(ord, rest, s) && |rest| == 0
    ensures Listing(ord, s)
  {
    assert rest == map[];
    SameSize(ord, s);
  }

  // ---------------------------------------------------------------------------
  // How far a set of rows is from being the first |s| rows.

  /** The number of rows missing from s among the first |s|. */
  function Gap<K(!new)>(ord: Order<K>, s: set<K>): nat {
    |First(ord, |s|) - s|
  }

  /** Missing rows inside the first |s| are matched by extra rows outside. */
  lemma GapCountsOutside<K(!new)>(ord: Order<K>, s: set<K>)
    requires Injective(ord) && s <= ord.Keys
    ensures |s - First(ord, |s|)| == Gap(ord, s)
  {
    FirstSize(ord, |s|);
    SubsetSize(s, ord.Keys);
    EqualSizesDifferEqually(First(ord, |s|), s);
  }

  /** Of the rows of s beyond the first |s|, one may stand at rank |s| + 1. */
  lemma OutsideNext<K(!new)>(ord: Order<K>, s: set<K>)
    requires Injective(ord) && s <= ord.Keys
    ensures |s - First(ord, |s| + 1)| == Gap(ord, s) - |(First(ord, |s| + 1) - First(ord, |s|)) * s|
  {
    hide First;
    GapCountsOutside(ord, s);
    FirstMonotone(ord, |s|, |s| + 1);
    hide Injective;
    var f, g := First(ord, |s|), First(ord, |s| + 1);
    DifferenceSize((g - f) * s, s - f);
    assert s - g == (s - f) - (g - f) * s;
  }

  lemma GapZero<K(!new)>(ord: Order<K>, s: set<K>)
    requires Injective(ord) && s <= ord.Keys
    ensures Gap(ord, s) == 0 <==> s == First(ord, |s|)
    ensures Gap(ord, s) == 0 <==> Initial(ord, s)
  {
    FirstFacts(ord, |s|);
    SubsetSize(s, ord.Keys);
    GapCountsOutside(ord, s);
    if Gap(ord, s) == 0 {
      assert s - First(ord, |s|) == {} && First(ord, |s|) - s == {};
    }
    if Initial(ord, s) {
      FirstUnique(ord, |s|, s);
    }
  }

  /** A new row taken from the first |s| + 1 never widens the gap. */
  lemma GapAfterSolve<K(!new)>(ord: Order<K>, s: set<K>, l: K)
    requires Injective(ord) && s <= ord.Keys && l !in s
    requires l in First(ord, |s| + 1)
    ensures Gap(ord, s + {l}) <= Gap(ord, s)
  {
    var f, g := First(ord, |s|), First(ord, |s| + 1);
    FirstSize(ord, |s|);
    FirstSize(ord, |s| + 1);
    FirstMonotone(ord, |s|, |s| + 1);
    SubsetSize(s, ord.Keys);
    MissingAfterAdd(f, g, s, l);
  }

  /** Deleting a row, from the table and from s, never widens the gap. */
  lemma GapAfterDelete<K(!new)>(ord: Order<K>, s: set<K>, d: K)
    requires Injective(ord) && s <= ord.Keys && d in ord
    ensures Injective(Without(ord, d))
    ensures Gap(Without(ord, d), s - {d}) <= Gap(ord, s)
  {
    var ord', s' := Without(ord, d), s - {d};
    var f, f' := First(ord, |s|), First(ord', |s'|);
    FirstFacts(ord, |s|);
    FirstFacts(ord', |s'|);
    SubsetSize(s, ord.Keys);
    assert Initial(ord', f - {d});
    if d in s || d !in f {
      InitialsNest(ord', f', f - {d});
    } else {
      InitialsNest(ord', f - {d}, f');
    }
    MissingAfterRemove(f, f', s, d);
  }

  /** Giving one row a new place, or adding one, widens the gap by at most 1. */
  lemma GapAfterPlacement<K(!new)>(ord: Order<K>, ord': Order<K>, s: set<K>, m: K)
    requires Injective(ord) && Injective(ord') && s <= ord.Keys
    requires Without(ord', m) == Without(ord, m) && m in ord'
    ensures Gap(ord', s) <= Gap(ord, s) + 1
  {
    var base := Without(ord, m);
    var f, f' := First(ord, |s|), First(ord', |s|);
    FirstFacts(ord, |s|);
    FirstFacts(ord', |s|);
    assert ord.Keys <= base.Keys + {m} == ord'.Keys;
    SubsetSize(s, ord.Keys);
    SubsetSize(ord.Keys, ord'.Keys);
    PlacementInitial(ord, base, f, m);
    PlacementInitial(ord', base, f', m);
    if |f' - {m}| <= |f - {m}| {
      InitialsNest(base, f' - {m}, f - {m});
    } else {
      InitialsNest(base, f - {m}, f' - {m});
    }
    MissingAfterPlacement(f, f', s, m);
  }

  lemma PlacementInitial<K(!new)>(ord: Order<K>, base: Order<K>, f: set<K>, m: K)
    requires base == Without(ord, m) && Initial(ord, f)
    ensures Initial(base, f - {m})
  {
    forall a, b | a in f - {m} && b in base && base[b] <= base[a] ensures b in f - {m} {
      assert ord[b] <= ord[a];
    }
  }

  /** Pigeonhole: while a row is missing, one of the first |s| + 1 is missing. */
  lemma SomeMissingIsNear<K(!new)>(ord: Order<K>, s: set<K>)
    requires Injective(ord) && s < ord.Keys
    ensures exists l :: l in First(ord, |s| + 1) && l !in s
  {
    FirstFacts(ord, |s| + 1);
    SubsetSize(s, ord.Keys);
    if |s| == |ord.Keys| {
      SubsetEqual(s, ord.Keys);
    }
    if First(ord, |s| + 1) <= s {
      SubsetSize(First(ord, |s| + 1), s);
      assert false;
    }
  }

  /** l is the lowest row that s lacks. */
  ghost predicate NextMissing<K(!new)>(ord: Order<K>, s: set<K>, l: K) {
    && l in ord && l !in s
    && forall x :: x in ord && x !in s ==> ord[l] <= ord[x]
  }

  /** When the first |s| + 1 rows cover s, they add exactly the next missing row. */
  lemma CoverAddsNext<K(!new)>(ord: Order<K>, s: set<K>)
    requires Injective(ord) && s < ord.Keys
    requires s <= First(ord, |s| + 1)
    ensures exists l :: NextMissing(ord, s, l) && First(ord, |s| + 1) == s + {l}
    ensures Gap(ord, s) <= 1
  {
    var g := First(ord, |s| + 1);
    FirstFacts(ord, |s| + 1);
    FirstFacts(ord, |s|);
    SomeMissingIsNear(ord, s);
    SubsetSize(s, ord.Keys);
    if |s| == |ord.Keys| {
      SubsetEqual(s, ord.Keys);
    }
    var l :| l in g && l !in s;
    SubsetEqual(s + {l}, g);
    assert NextMissing(ord, s, l);
    FirstMonotone(ord, |s|, |s| + 1);
    SubsetSize(First(ord, |s|) - s, {l});
  }

  /** p is s and the next row s lacks, or s itself when s lacks none. */
  ghost predicate PlusNext<K(!new)>(ord: Order<K>, s: set<K>, p: set<K>) {
    if s == ord.Keys then p == s
    else exists l :: NextMissing(ord, s, l) && p == s + {l}
  }

  lemma PlusNextIff<K(!new)>(ord: Order<K>, s: set<K>)
    requires Injective(ord) && s <= ord.Keys
    ensures PlusNext(ord, s, First(ord, |s| + 1)) <==> s <= First(ord, |s| + 1)
    ensures PlusNext(ord, s, First(ord, |s| + 1)) ==> Gap(ord, s) <= 1
  {
    FirstSize(ord, |s| + 1);
    if s == ord.Keys {
      FirstSize(ord, |s|);
      SubsetSize(First(ord, |s|) - s, {});
      if s <= First(ord, |s| + 1) {
        SubsetEqual(s, First(ord, |s| + 1));
      }
    } else if s <= First(ord, |s| + 1) {
      CoverAddsNext(ord, s);
    }
  }

  // ---------------------------------------------------------------------------
  // When the first |s| + 1 rows cover s

  /** The rows s lacks that stand before m. */
  function MissingBelow<K(!new)>(ord: Order<K>, s: set<K>, m: K): set<K>
    requires m in ord
  {
    set x | x in ord && x !in s && ord[x] < ord[m]
  }

  lemma RankSplit<K(!new)>(ord: Order<K>, s: set<K>, m: K)
    requires Injective(ord) && s <= ord.Keys && m in s
    ensures Rank(ord, ord[m]) == |UpTo(ord, ord[m]) * s| + |MissingBelow(ord, s, m)|
  {
    var up, below := UpTo(ord, ord[m]), MissingBelow(ord, s, m);
    assert up == up * s + below;
  }

  lemma LastOf<K(!new)>(ord: Order<K>, s: set<K>) returns (t: K)
    requires s <= ord.Keys && s != {}
    ensures t in s && forall m :: m in s ==> ord[m] <= ord[t]
  {
    var part := map l | l in s :: ord[l];
    assert part.Keys == s;
    LastExists(part);
    t :| IsLast(part, t);
  }

  lemma CoveredHasOneBelow<K(!new)>(ord: Order<K>, s: set<K>, m: K)
    requires Injective(ord) && s <= ord.Keys && s <= First(ord, |s| + 1) && m in s
    ensures |MissingBelow(ord, s, m)| <= 1
  {
    var t := LastOf(ord, s);
    RankSplit(ord, s, t);
    assert UpTo(ord, ord[t]) * s == s;
    SubsetSize(MissingBelow(ord, s, m), MissingBelow(ord, s, t));
  }

  /** The first |s| + 1 rows cover s iff at most one row that s lacks stands before
      any row of s. */
  lemma CoverIff<K(!new)>(ord: Order<K>, s: set<K>)
    requires Injective(ord) && s <= ord.Keys
    ensures s <= First(ord, |s| + 1) <==> forall m :: m in s ==> |MissingBelow(ord, s, m)| <= 1
  {
    if s <= First(ord, |s| + 1) {
      forall m | m in s ensures |MissingBelow(ord, s, m)| <= 1 {
        CoveredHasOneBelow(ord, s, m);
      }
    }
    if forall m :: m in s ==> |MissingBelow(ord, s, m)| <= 1 {
      forall m | m in s ensures m in First(ord, |s| + 1) {
        RankSplit(ord, s, m);
        SubsetSize(UpTo(ord, ord[m]) * s, s);
      }
    }
  }
}
