/** Cardinality facts about finite sets. */
module Sets {

  lemma Pick<T>(s: set<T>) returns (x: T)
    requires s != {}
    ensures x in s
  {
    x :| x in s;
  }

  lemma SubsetSize<T>(p: set<T>, q: set<T>)
    requires p <= q
    ensures |p| <= |q|
  {
    assert q == p + (q - p);
  }

  lemma SubsetEqual<T>(p: set<T>, q: set<T>)
    requires p <= q && |q| <= |p|
    ensures p == q
  {
    assert q == p + (q - p);
  }

  lemma {:induction false} DistinctSize<T>(s: seq<T>)
    requires forall i, j :: 0 <= i < j < |s| ==> s[i] != s[j]
    ensures |set x | x in s| == |s|
  {
    if |s| > 0 {
      var t := s[..|s| - 1];
      DistinctSize(t);
      assert (set x | x in s) == (set x | x in t) + {s[|s| - 1]};
    }
  }

  lemma DifferenceSize<T>(p: set<T>, q: set<T>)
    requires p <= q
    ensures |q - p| == |q| - |p|
  {
    assert q == p + (q - p);
  }

  /** What f misses of s and what s misses of f, for sets of one size. */
  lemma EqualSizesDifferEqually<T>(f: set<T>, s: set<T>)
    requires |f| == |s|
    ensures |f - s| == |s - f|
  {
    assert s == (s - f) + (s * f);
    assert f == (f - s) + (s * f);
    assert (s - f) !! (s * f) && (f - s) !! (s * f);
  }

  /** Growing f by at most x.size elements lets at most that many more be missing. */
  lemma MissingGrowth<T>(f: set<T>, g: set<T>, s: set<T>)
    requires f <= g
    ensures |g - s| <= |f - s| + |g| - |f|
  {
    SubsetSize(g - s, (f - s) + (g - f));
    DifferenceSize(f, g);
  }

  lemma MissingAfterAdd<T>(f: set<T>, g: set<T>, s: set<T>, l: T)
    requires f <= g && |g| <= |f| + 1 && l in g && l !in s
    ensures |g - (s + {l})| <= |f - s|
  {
    MissingGrowth(f, g, s);
    assert g - (s + {l}) == (g - s) - {l};
  }

  lemma MissingAfterRemove<T>(f: set<T>, f': set<T>, s: set<T>, d: T)
    requires d !in f'
    requires f' <= f - {d} || (f - {d} <= f' && |f'| <= |f| && d in f && d !in s)
    ensures |f' - (s - {d})| <= |f - s|
  {
    assert f' - (s - {d}) == f' - s;
    if f' <= f - {d} {
      SubsetSize(f' - s, f - s);
    } else {
      MissingGrowth(f - {d}, f', s);
      assert (f - {d}) - s == (f - s) - {d};
    }
  }

  lemma MissingAfterPlacement<T>(f: set<T>, f': set<T>, s: set<T>, m: T)
    requires |f| == |f'|
    requires f' - {m} <= f - {m} || f - {m} <= f' - {m}
    ensures |f' - s| <= |f - s| + 1
  {
    if f' - {m} <= f - {m} {
      assert forall x :: x in f' && x != m ==> x in f - {m};
      SubsetSize(f' - s, (f - s) + {m});
    } else {
      MissingGrowth(f - {m}, f', s);
      SubsetSize((f - {m}) - s, f - s);
    }
  }

  /** Moving one more element out of the rows still to be scanned. */
  lemma ScanStep<T>(hits: set<T>, rest: set<T>, x: T)
    requires x in rest
    ensures |hits - (rest - {x})| == |hits - rest| + (if x in hits then 1 else 0)
  {
    if x in hits {
      assert hits - (rest - {x}) == (hits - rest) + {x};
    } else {
      assert hits - (rest - {x}) == hits - rest;
    }
  }

  lemma ScanDone<T>(hits: set<T>)
    ensures |hits - {}| == |hits|
  {
    assert hits - {} == hits;
  }

  lemma ScanStart<T>(hits: set<T>, all: set<T>)
    requires hits <= all
    ensures |hits - all| == 0
  {
    assert hits - all == {};
  }
}
