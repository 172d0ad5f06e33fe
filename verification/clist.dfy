/** `clist.py`: the catalogue of standard capacitor values and the search for
    combinations of catalogue values (with repetition) that add up to a
    target capacitance.

    A combination (a Python tuple) is a `seq<int>`; a result tuple of
    combinations is a `seq<seq<int>>`; a Python dict is the list of its items
    in insertion order. */
module Clist {
  import opened Wrappers

  /** `CAPLIST` (clist.py:10-15), written in rows of eight. */
  const CAPLIST: seq<int> :=
    [10, 11, 12, 13, 15, 16, 18, 20] + [22, 24, 27, 30, 33, 36, 39, 43] +
    [47, 51, 56, 62, 68, 75, 82, 91] + [100, 110, 120, 130, 150, 160, 180, 200] +
    [220, 240, 270, 300, 330, 360, 390, 430] + [470, 510, 560, 620, 680, 750, 820, 910] +
    [1000, 1100, 1200, 1500, 1800, 2200, 2400, 2700]

  function Sum(t: seq<int>): int
  {
    if t == [] then 0 else t[0] + Sum(t[1..])
  }

  predicate StrictlyAscending(pool: seq<int>)
  {
    forall i, j :: 0 <= i < j < |pool| ==> pool[i] < pool[j]
  }

  predicate NonDecreasing(t: seq<int>)
  {
    forall i, j :: 0 <= i < j < |t| ==> t[i] <= t[j]
  }

  /** The catalogue is strictly ascending and has 56 entries. */
  lemma CaplistAscending()
    ensures |CAPLIST| == 56
    ensures StrictlyAscending(CAPLIST)
  {
    assert forall i :: 0 <= i < |CAPLIST| - 1 ==> CAPLIST[i] < CAPLIST[i + 1];
    AdjacentAscending(CAPLIST);
  }

  lemma {:induction false} AdjacentAscending(pool: seq<int>)
    requires forall i :: 0 <= i < |pool| - 1 ==> pool[i] < pool[i + 1]
    ensures StrictlyAscending(pool)
  {
    if |pool| > 1 {
      AdjacentAscending(pool[1..]);
      forall j | 1 <= j < |pool|
        ensures pool[0] < pool[j]
      {
        assert pool[1..][j - 1] == pool[j];
        if j > 1 {
          assert pool[1..][0] < pool[1..][j - 1];
        }
      }
    }
  }

  // ---------------------------------------------------------------------------
  // combinations_with_replacement

  function Prepend(x: int, ts: seq<seq<int>>): seq<seq<int>>
  {
    seq(|ts|, i requires 0 <= i < |ts| => [x] + ts[i])
  }

  /** `itertools.combinations_with_replacement(pool, r)`: the `r`-tuples whose
      positions in `pool` never decrease, in lexicographic order of positions. */
  function CombinationsWithReplacement(pool: seq<int>, r: nat): seq<seq<int>>
    decreases |pool|, r
  {
    if r == 0 then [[]]
    else if pool == [] then []
    else Prepend(pool[0], CombinationsWithReplacement(pool, r - 1))
         + CombinationsWithReplacement(pool[1..], r)
  }

  /** `t` can be drawn from `pool` left to right, each entry any number of
      times: the tuples `combinations_with_replacement` produces. */
  predicate InPoolOrder(t: seq<int>, pool: seq<int>)
    decreases |pool|, |t|
  {
    t == [] ||
    (pool != [] &&
     ((t[0] == pool[0] && InPoolOrder(t[1..], pool)) || InPoolOrder(t, pool[1..])))
  }

  lemma PrependMembers(x: int, ts: seq<seq<int>>, t: seq<int>)
    ensures t in Prepend(x, ts) <==> |t| >= 1 && t[0] == x && t[1..] in ts
  {
    var p := Prepend(x, ts);
    if t in p {
      var i :| 0 <= i < |p| && p[i] == t;
      assert t[1..] == ts[i];
    }
    if |t| >= 1 && t[0] == x && t[1..] in ts {
      var i :| 0 <= i < |ts| && ts[i] == t[1..];
      assert p[i] == t;
    }
  }

  /** The tuples of `combinations_with_replacement(pool, r)` are exactly the
      `r`-tuples drawn from `pool` in pool order. */
  lemma {:induction false} CombinationsMembers(pool: seq<int>, r: nat, t: seq<int>)
    ensures t in CombinationsWithReplacement(pool, r) <==> |t| == r && InPoolOrder(t, pool)
    decreases |pool|, r
  {
    if r == 0 {
    } else if pool == [] {
    } else {
      var front := CombinationsWithReplacement(pool, r - 1);
      var back := CombinationsWithReplacement(pool[1..], r);
      assert CombinationsWithReplacement(pool, r) == Prepend(pool[0], front) + back;
      PrependMembers(pool[0], front, t);
      CombinationsMembers(pool[1..], r, t);
      if |t| >= 1 {
        CombinationsMembers(pool, r - 1, t[1..]);
      }
    }
  }

  lemma {:induction false} InPoolOrderMembers(t: seq<int>, pool: seq<int>)
    requires InPoolOrder(t, pool)
    ensures forall i :: 0 <= i < |t| ==> t[i] in pool
    decreases |pool|, |t|
  {
    if t != [] {
      if t[0] == pool[0] && InPoolOrder(t[1..], pool) {
        InPoolOrderMembers(t[1..], pool);
        forall i | 1 <= i < |t|
          ensures t[i] in pool
        {
          assert t[1..][i - 1] == t[i];
        }
      } else {
        InPoolOrderMembers(t, pool[1..]);
      }
    }
  }

  /** For an ascending pool, "drawn in pool order" means: non-decreasing, and
      every entry from the pool. */
  lemma InPoolOrderAscending(t: seq<int>, pool: seq<int>)
    requires StrictlyAscending(pool)
    ensures InPoolOrder(t, pool) <==> NonDecreasing(t) && forall i :: 0 <= i < |t| ==> t[i] in pool
  {
    if InPoolOrder(t, pool) {
      InPoolOrderMembers(t, pool);
      InPoolOrderNonDecreasing(t, pool);
    }
    if NonDecreasing(t) && forall i :: 0 <= i < |t| ==> t[i] in pool {
      AscendingInPoolOrder(t, pool);
    }
  }

  /** A tuple drawn in the order of an ascending pool is non-decreasing, and
      its entries are no smaller than the pool's first. */
  lemma {:induction false} InPoolOrderNonDecreasing(t: seq<int>, pool: seq<int>)
    requires StrictlyAscending(pool) && InPoolOrder(t, pool)
    ensures NonDecreasing(t)
    ensures forall i :: 0 <= i < |t| ==> pool[0] <= t[i]
    decreases |pool|, |t|
  {
    if t != [] {
      assert StrictlyAscending(pool[1..]);
      if t[0] == pool[0] && InPoolOrder(t[1..], pool) {
        InPoolOrderNonDecreasing(t[1..], pool);
        forall i, j | 0 <= i < j < |t|
          ensures t[i] <= t[j]
        {
          assert t[1..][j - 1] == t[j];
          if i > 0 {
            assert t[1..][i - 1] == t[i];
          }
        }
        forall i | 0 <= i < |t|
          ensures pool[0] <= t[i]
        {
          if i > 0 {
            assert t[1..][i - 1] == t[i];
          }
        }
      } else {
        InPoolOrderNonDecreasing(t, pool[1..]);
      }
    }
  }

  /** A non-decreasing tuple of values from an ascending pool is drawn in
      pool order. */
  lemma {:induction false} AscendingInPoolOrder(t: seq<int>, pool: seq<int>)
    requires StrictlyAscending(pool)
    requires NonDecreasing(t) && forall i :: 0 <= i < |t| ==> t[i] in pool
    ensures InPoolOrder(t, pool)
    decreases |pool|, |t|
  {
    if t != [] {
      assert t[0] in pool;
      assert StrictlyAscending(pool[1..]);
      if t[0] == pool[0] {
        forall i | 0 <= i < |t[1..]|
          ensures t[1..][i] in pool
        {
          assert t[1..][i] == t[i + 1];
        }
        assert NonDecreasing(t[1..]);
        AscendingInPoolOrder(t[1..], pool);
      } else {
        forall i | 0 <= i < |t|
          ensures t[i] in pool[1..]
        {
          var m :| 0 <= m < |pool| && pool[m] == t[i];
          assert pool[1..][m - 1] == t[i];
        }
        AscendingInPoolOrder(t, pool[1..]);
      }
    }
  }

  // ---------------------------------------------------------------------------
  // Lexicographic order

  /** Python's tuple comparison `a < b`. */
  predicate LexLess(a: seq<int>, b: seq<int>)
    decreases |a|
  {
    b != [] && (a == [] || a[0] < b[0] || (a[0] == b[0] && LexLess(a[1..], b[1..])))
  }

  lemma {:induction false} LexIrreflexive(a: seq<int>)
    ensures !LexLess(a, a)
    decreases |a|
  {
    if a != [] {
      LexIrreflexive(a[1..]);
    }
  }

  lemma {:induction false} LexTransitive(a: seq<int>, b: seq<int>, c: seq<int>)
    requires LexLess(a, b) && LexLess(b, c)
    ensures LexLess(a, c)
    decreases |a|
  {
    if a != [] && a[0] == b[0] && b[0] == c[0] {
      LexTransitive(a[1..], b[1..], c[1..]);
    }
  }

  lemma {:induction false} LexTotal(a: seq<int>, b: seq<int>)
    requires a != b
    ensures LexLess(a, b) || LexLess(b, a)
    decreases |a|
  {
    if a != [] && b != [] && a[0] == b[0] {
      assert a == [a[0]] + a[1..] && b == [b[0]] + b[1..];
      LexTotal(a[1..], b[1..]);
    }
  }

  predicate StrictlySorted(ts: seq<seq<int>>)
  {
    forall i, j :: 0 <= i < j < |ts| ==> LexLess(ts[i], ts[j])
  }

  /** Two strictly sorted lists holding the same tuples are the same list. */
  lemma {:induction false} SortedUnique(a: seq<seq<int>>, b: seq<seq<int>>)
    requires StrictlySorted(a) && StrictlySorted(b)
    requires forall t :: t in a <==> t in b
    ensures a == b
    decreases |a|
  {
    assert b == [] || b[0] in b;
    if a == [] {
    } else {
      assert a[0] in b;
      assert b != [];
      if a[0] != b[0] {
        assert b[0] in a;
        var i :| 0 <= i < |a| && a[i] == b[0];
        var j :| 0 <= j < |b| && b[j] == a[0];
        LexTransitive(a[0], b[0], a[0]);
        LexIrreflexive(a[0]);
        assert false;
      }
      forall t
        ensures t in a[1..] <==> t in b[1..]
      {
        if t in a[1..] {
          var i :| 1 <= i < |a| && a[i] == t;
          LexIrreflexive(a[0]);
          assert t in b && t != b[0];
        }
        if t in b[1..] {
          var j :| 1 <= j < |b| && b[j] == t;
          LexIrreflexive(b[0]);
          assert t in a && t != a[0];
        }
      }
      SortedUnique(a[1..], b[1..]);
      assert a == [a[0]] + a[1..] && b == [b[0]] + b[1..];
    }
  }

  lemma SortedConcat(a: seq<seq<int>>, b: seq<seq<int>>)
    requires StrictlySorted(a) && StrictlySorted(b)
    requires forall s, t :: s in a && t in b ==> LexLess(s, t)
    ensures StrictlySorted(a + b)
  {
    forall i, j | 0 <= i < j < |a + b|
      ensures LexLess((a + b)[i], (a + b)[j])
    {
      if j < |a| {
        assert (a + b)[i] == a[i] && (a + b)[j] == a[j];
      } else if i >= |a| {
        assert (a + b)[i] == b[i - |a|] && (a + b)[j] == b[j - |a|];
      } else {
        assert (a + b)[i] in a && (a + b)[j] in b;
      }
    }
  }

  /** For a strictly ascending pool the tuples come out in strictly ascending
      lexicographic order, so none repeats. */
  lemma {:induction false} CombinationsSorted(pool: seq<int>, r: nat)
    requires StrictlyAscending(pool)
    ensures StrictlySorted(CombinationsWithReplacement(pool, r))
    decreases |pool|, r
  {
    if r > 0 && pool != [] {
      var front := CombinationsWithReplacement(pool, r - 1);
      var back := CombinationsWithReplacement(pool[1..], r);
      var pre := Prepend(pool[0], front);
      CombinationsSorted(pool, r - 1);
      assert StrictlyAscending(pool[1..]);
      CombinationsSorted(pool[1..], r);
      forall i, j | 0 <= i < j < |pre|
        ensures LexLess(pre[i], pre[j])
      {
        assert pre[i][1..] == front[i] && pre[j][1..] == front[j];
      }
      forall s, t | s in pre && t in back
        ensures LexLess(s, t)
      {
        PrependMembers(pool[0], front, s);
        CombinationsMembers(pool[1..], r, t);
        InPoolOrderMembers(t, pool[1..]);
        var k :| 0 <= k < |pool[1..]| && pool[1..][k] == t[0];
        assert pool[k + 1] == t[0];
      }
      SortedConcat(pre, back);
    }
  }

  // ---------------------------------------------------------------------------
  // combi_proposer

  /** The tuples of `ts` whose sum is `v` (clist.py:50-54). */
  function WithSum(ts: seq<seq<int>>, v: int): (r: seq<seq<int>>)
    ensures forall t :: t in r <==> t in ts && Sum(t) == v
    ensures |r| <= |ts|
  {
    if ts == [] then []
    else
      var rest := WithSum(ts[1..], v);
      assert forall t :: t in ts <==> t == ts[0] || t in ts[1..];
      (if Sum(ts[0]) == v then [ts[0]] else []) + rest
  }

  /** Filtering keeps the chosen tuples in their original order. */
  lemma {:induction false} WithSumOrder(ts: seq<seq<int>>, v: int)
    ensures IsSubsequence(WithSum(ts, v), ts)
  {
    if ts != [] {
      WithSumOrder(ts[1..], v);
      var r := WithSum(ts, v);
      if Sum(ts[0]) == v {
        assert r != [] && r[0] == ts[0] && r[1..] == WithSum(ts[1..], v);
      } else {
        assert r == WithSum(ts[1..], v);
      }
    }
  }

  /** Filtering keeps each chosen tuple as often as it occurs in `ts` and
      drops every other tuple. */
  lemma {:induction false} WithSumCounts(ts: seq<seq<int>>, v: int)
    ensures forall t :: multiset(WithSum(ts, v))[t] == if Sum(t) == v then multiset(ts)[t] else 0
  {
    if ts != [] {
      WithSumCounts(ts[1..], v);
      assert ts == [ts[0]] + ts[1..];
    }
  }

  lemma {:induction false} WithSumSorted(ts: seq<seq<int>>, v: int)
    requires StrictlySorted(ts)
    ensures StrictlySorted(WithSum(ts, v))
  {
    if ts != [] {
      assert StrictlySorted(ts[1..]);
      WithSumSorted(ts[1..], v);
      var rest := WithSum(ts[1..], v);
      forall t | t in rest
        ensures LexLess(ts[0], t)
      {
        var j :| 0 <= j < |ts[1..]| && ts[1..][j] == t;
        assert ts[j + 1] == t;
      }
      if Sum(ts[0]) == v {
        SortedConcat([ts[0]], rest);
      }
    }
  }

  /** `combi_proposer(var, combo, caplist)` (clist.py:18-54). */
  function Propose(v: int, combo: nat, pool: seq<int>): seq<seq<int>>
  {
    WithSum(CombinationsWithReplacement(pool, combo), v)
  }

  /** Soundness and completeness: a tuple is proposed exactly when it has
      `combo` entries drawn from the catalogue in catalogue order and adds up
      to `v`. */
  lemma ProposeMembers(v: int, combo: nat, pool: seq<int>, t: seq<int>)
    ensures t in Propose(v, combo, pool) <==> |t| == combo && InPoolOrder(t, pool) && Sum(t) == v
    ensures t in Propose(v, combo, pool) ==> forall i :: 0 <= i < |t| ==> t[i] in pool
  {
    CombinationsMembers(pool, combo, t);
    if t in Propose(v, combo, pool) {
      InPoolOrderMembers(t, pool);
    }
  }

  /** Narrowing an ascending catalogue to an ascending sub-catalogue never
      adds a proposal. */
  lemma ProposeRestrict(v: int, combo: nat, pool: seq<int>, sub: seq<int>, t: seq<int>)
    requires StrictlyAscending(pool) && StrictlyAscending(sub)
    requires forall x :: x in sub ==> x in pool
    ensures t in Propose(v, combo, sub) ==> t in Propose(v, combo, pool)
  {
    ProposeAscending(v, combo, sub);
    ProposeAscending(v, combo, pool);
  }

  /** For an ascending catalogue (such as `CAPLIST`) the proposals are the
      non-decreasing `combo`-tuples of catalogue values adding up to `v`,
      listed in strictly ascending order, so without duplicates. */
  lemma ProposeAscending(v: int, combo: nat, pool: seq<int>)
    requires StrictlyAscending(pool)
    ensures StrictlySorted(Propose(v, combo, pool))
    ensures forall t :: t in Propose(v, combo, pool) <==>
      |t| == combo && NonDecreasing(t) && (forall i :: 0 <= i < |t| ==> t[i] in pool) && Sum(t) == v
  {
    CombinationsSorted(pool, combo);
    WithSumSorted(CombinationsWithReplacement(pool, combo), v);
    forall t
      ensures t in Propose(v, combo, pool) <==>
        |t| == combo && NonDecreasing(t) && (forall i :: 0 <= i < |t| ==> t[i] in pool) && Sum(t) == v
    {
      ProposeMembers(v, combo, pool, t);
      InPoolOrderAscending(t, pool);
    }
  }

  /** Pairs from `CAPLIST`: `[a, b]` is proposed for `v` exactly when both are
      catalogue values, `a <= b` and `a + b == v`. */
  lemma ProposedPairs(v: int, pool: seq<int>, t: seq<int>)
    requires StrictlyAscending(pool)
    ensures t in Propose(v, 2, pool) <==>
      |t| == 2 && t[0] in pool && t[1] in pool && t[0] <= t[1] && t[0] + t[1] == v
  {
    ProposeAscending(v, 2, pool);
    if |t| == 2 {
      PairFacts(t, pool);
    }
  }

  /** The tuple predicates above, spelled out for a pair. */
  lemma PairFacts(t: seq<int>, pool: seq<int>)
    requires |t| == 2
    ensures Sum(t) == t[0] + t[1]
    ensures NonDecreasing(t) <==> t[0] <= t[1]
    ensures (forall i :: 0 <= i < |t| ==> t[i] in pool) <==> t[0] in pool && t[1] in pool
  {
    assert t[1..][1..] == [];
    assert Sum(t[1..]) == t[1] + Sum(t[1..][1..]);
  }

  /** Membership of `CAPLIST` as a plain disjunction, which the pair searches
      below reason about more cheaply than sequence membership. */
  predicate IsCatalogValue(x: int)
  {
    x == 10 || x == 11 || x == 12 || x == 13 || x == 15 || x == 16 || x == 18 || x == 20
    || x == 22 || x == 24 || x == 27 || x == 30 || x == 33 || x == 36 || x == 39 || x == 43
    || x == 47 || x == 51 || x == 56 || x == 62 || x == 68 || x == 75 || x == 82 || x == 91
    || x == 100 || x == 110 || x == 120 || x == 130 || x == 150 || x == 160 || x == 180 || x == 200
    || x == 220 || x == 240 || x == 270 || x == 300 || x == 330 || x == 360 || x == 390 || x == 430
    || x == 470 || x == 510 || x == 560 || x == 620 || x == 680 || x == 750 || x == 820 || x == 910
    || x == 1000 || x == 1100 || x == 1200 || x == 1500 || x == 1800 || x == 2200 || x == 2400 || x == 2700
  }

  lemma CatalogMembers(x: int)
    requires x in CAPLIST
    ensures IsCatalogValue(x)
  {
  }

  /** A sorted list of pool pairs for `v` that holds every pool pair adding
      up to `v` is what `combi_proposer(v, 2, pool)` returns. */
  lemma PairProposals(v: int, pool: seq<int>, expected: seq<seq<int>>)
    requires StrictlyAscending(pool) && StrictlySorted(expected)
    requires forall t :: t in expected ==>
      |t| == 2 && t[0] in pool && t[1] in pool && t[0] <= t[1] && t[0] + t[1] == v
    requires forall a, b :: a in pool && b in pool && a <= b && a + b == v ==> [a, b] in expected
    ensures Propose(v, 2, pool) == expected
  {
    var p := Propose(v, 2, pool);
    ProposeAscending(v, 2, pool);
    forall t
      ensures t in p <==> t in expected
    {
      ProposedPairs(v, pool, t);
      if t in p {
        assert t == [t[0], t[1]];
      }
    }
    SortedUnique(p, expected);
  }

  /** The doctests of `combi_proposer` (clist.py:23-45). */
  lemma ProposeDoctest100()
    ensures Propose(100, 2, CAPLIST) == [[18, 82]]
  {
    CaplistAscending();
    Listed100();
    AllPairs100();
    PairProposals(100, CAPLIST, [[18, 82]]);
  }

  lemma Listed100()
    ensures StrictlySorted([[18, 82]])
    ensures forall t :: t in [[18, 82]] ==>
      |t| == 2 && t[0] in CAPLIST && t[1] in CAPLIST && t[0] <= t[1] && t[0] + t[1] == 100
  {
  }

  lemma AllPairs100()
    ensures forall a, b :: a in CAPLIST && b in CAPLIST && a <= b && a + b == 100 ==> [a, b] in [[18, 82]]
  {
    forall a, b | a in CAPLIST && b in CAPLIST && a <= b && a + b == 100
      ensures [a, b] in [[18, 82]]
    {
      CatalogMembers(a);
      CatalogMembers(b);
    }
  }

  lemma ProposeDoctest102()
    ensures Propose(102, 2, CAPLIST) == [[11, 91], [20, 82], [27, 75], [51, 51]]
  {
    CaplistAscending();
    Listed102();
    AllPairs102();
    PairProposals(102, CAPLIST, [[11, 91], [20, 82], [27, 75], [51, 51]]);
  }

  lemma Listed102()
    ensures StrictlySorted([[11, 91], [20, 82], [27, 75], [51, 51]])
    ensures forall t :: t in [[11, 91], [20, 82], [27, 75], [51, 51]] ==>
      |t| == 2 && t[0] in CAPLIST && t[1] in CAPLIST && t[0] <= t[1] && t[0] + t[1] == 102
  {
  }

  lemma AllPairs102()
    ensures forall a, b :: a in CAPLIST && b in CAPLIST && a <= b && a + b == 102 ==> [a, b] in [[11, 91], [20, 82], [27, 75], [51, 51]]
  {
    forall a, b | a in CAPLIST && b in CAPLIST && a <= b && a + b == 102
      ensures [a, b] in [[11, 91], [20, 82], [27, 75], [51, 51]]
    {
      CatalogMembers(a);
      CatalogMembers(b);
    }
  }

  lemma ProposeDoctest128()
    ensures Propose(128, 2, CAPLIST) == [[18, 110]]
  {
    CaplistAscending();
    Listed128();
    AllPairs128();
    PairProposals(128, CAPLIST, [[18, 110]]);
  }

  lemma Listed128()
    ensures StrictlySorted([[18, 110]])
    ensures forall t :: t in [[18, 110]] ==>
      |t| == 2 && t[0] in CAPLIST && t[1] in CAPLIST && t[0] <= t[1] && t[0] + t[1] == 128
  {
  }

  lemma AllPairs128()
    ensures forall a, b :: a in CAPLIST && b in CAPLIST && a <= b && a + b == 128 ==> [a, b] in [[18, 110]]
  {
    forall a, b | a in CAPLIST && b in CAPLIST && a <= b && a + b == 128
      ensures [a, b] in [[18, 110]]
    {
      CatalogMembers(a);
      CatalogMembers(b);
    }
  }

  lemma ProposeDoctest256()
    ensures Propose(256, 2, CAPLIST) == [[16, 240], [36, 220], [56, 200]]
  {
    CaplistAscending();
    Listed256();
    AllPairs256();
    PairProposals(256, CAPLIST, [[16, 240], [36, 220], [56, 200]]);
  }

  lemma Listed256()
    ensures StrictlySorted([[16, 240], [36, 220], [56, 200]])
    ensures forall t :: t in [[16, 240], [36, 220], [56, 200]] ==>
      |t| == 2 && t[0] in CAPLIST && t[1] in CAPLIST && t[0] <= t[1] && t[0] + t[1] == 256
  {
  }

  lemma AllPairs256()
    ensures forall a, b :: a in CAPLIST && b in CAPLIST && a <= b && a + b == 256 ==> [a, b] in [[16, 240], [36, 220], [56, 200]]
  {
    forall a, b | a in CAPLIST && b in CAPLIST && a <= b && a + b == 256
      ensures [a, b] in [[16, 240], [36, 220], [56, 200]]
    {
      CatalogMembers(a);
      CatalogMembers(b);
    }
  }

  // ---------------------------------------------------------------------------
  // combi_propose_all and has_value

  /** One item of a dict from target values to their proposals. */
  datatype Item = Item(key: int, proposals: seq<seq<int>>)

  function Keys(d: seq<Item>): (ks: seq<int>)
    ensures |ks| == |d| && forall i :: 0 <= i < |d| ==> ks[i] == d[i].key
  {
    if d == [] then [] else [d[0].key] + Keys(d[1..])
  }

  predicate Distinct(xs: seq<int>)
  {
    forall i, j :: 0 <= i < j < |xs| ==> xs[i] != xs[j]
  }

  /** `d[k]`, or `None` where a dict lookup raises KeyError. */
  function Get(d: seq<Item>, k: int): Option<seq<seq<int>>>
  {
    if d == [] then None
    else if d[0].key == k then Some(d[0].proposals)
    else Get(d[1..], k)
  }

  /** `d[k] = v`: a key already present keeps its place and takes the new
      value; a new key is added last. */
  function Put(d: seq<Item>, k: int, v: seq<seq<int>>): seq<Item>
  {
    if d == [] then [Item(k, v)]
    else if d[0].key == k then [Item(k, v)] + d[1..]
    else [d[0]] + Put(d[1..], k, v)
  }

  /** Storing a value keeps the keys distinct and adds `k` at the end only
      when it is new. */
  lemma {:induction false} PutKeys(d: seq<Item>, k: int, v: seq<seq<int>>)
    requires Distinct(Keys(d))
    ensures Keys(Put(d, k, v)) == if k in Keys(d) then Keys(d) else Keys(d) + [k]
    ensures Distinct(Keys(Put(d, k, v)))
  {
    if d != [] && d[0].key != k {
      var tail := d[1..];
      PutKeys(tail, k, v);
      PutKeysStep(d[0].key, Keys(tail), Keys(Put(tail, k, v)), k);
    }
  }

  /** The inductive step of `PutKeys`, on the key lists alone. */
  lemma PutKeysStep(x: int, keys: seq<int>, after: seq<int>, k: int)
    requires Distinct([x] + keys) && x != k
    requires after == if k in keys then keys else keys + [k]
    requires Distinct(after)
    ensures [x] + after == if k in [x] + keys then [x] + keys else [x] + keys + [k]
    ensures Distinct([x] + after)
  {
    assert x !in keys by {
      forall i | 0 <= i < |keys|
        ensures keys[i] != x
      {
        assert ([x] + keys)[0] == x && ([x] + keys)[i + 1] == keys[i];
      }
    }
    assert k in [x] + keys <==> k in keys;
    DistinctCons(x, after);
  }

  lemma DistinctCons(x: int, xs: seq<int>)
    requires x !in xs && Distinct(xs)
    ensures Distinct([x] + xs)
  {
    forall i, j | 0 <= i < j < |[x] + xs|
      ensures ([x] + xs)[i] != ([x] + xs)[j]
    {
      assert ([x] + xs)[j] == xs[j - 1];
    }
  }

  /** After storing, `d[k] == v`, every other key keeps its value, and no
      item besides `(k, v)` is introduced. */
  lemma {:induction false} PutLookup(d: seq<Item>, k: int, v: seq<seq<int>>)
    ensures Get(Put(d, k, v), k) == Some(v)
    ensures forall k' :: k' != k ==> Get(Put(d, k, v), k') == Get(d, k')
    ensures forall it :: it in Put(d, k, v) ==> it == Item(k, v) || it in d
  {
    if d != [] && d[0].key != k {
      PutLookup(d[1..], k, v);
      assert Put(d, k, v)[1..] == Put(d[1..], k, v);
    }
  }

  /** The distinct values of `xs` in the order of their first occurrence. */
  function FirstOccurrences(xs: seq<int>): seq<int>
  {
    if xs == [] then []
    else
      var front, last := xs[..|xs| - 1], xs[|xs| - 1];
      FirstOccurrences(front) + (if last in front then [] else [last])
  }

  lemma {:induction false} FirstOccurrencesSpec(xs: seq<int>)
    ensures Distinct(FirstOccurrences(xs))
    ensures forall x :: x in FirstOccurrences(xs) <==> x in xs
  {
    if xs != [] {
      var front := xs[..|xs| - 1];
      FirstOccurrencesSpec(front);
      assert xs == front + [xs[|xs| - 1]];
    }
  }

  /** `combi_propose_all(combo, *vars)` (clist.py:57-59): the dict
      comprehension stores `combi_proposer(k, combo)` for each target from
      left to right. */
  function ProposeAll(combo: nat, vars: seq<int>): seq<Item>
  {
    if vars == [] then []
    else
      var k := vars[|vars| - 1];
      Put(ProposeAll(combo, vars[..|vars| - 1]), k, Propose(k, combo, CAPLIST))
  }

  /** The dict has one key per distinct target, in order of first
      occurrence. */
  lemma {:induction false} ProposeAllKeys(combo: nat, vars: seq<int>)
    ensures Keys(ProposeAll(combo, vars)) == FirstOccurrences(vars)
    ensures Distinct(Keys(ProposeAll(combo, vars)))
  {
    if vars != [] {
      var front, k := vars[..|vars| - 1], vars[|vars| - 1];
      ProposeAllKeys(combo, front);
      FirstOccurrencesSpec(front);
      PutKeys(ProposeAll(combo, front), k, Propose(k, combo, CAPLIST));
    }
  }

  /** Each target maps to its proposals from `CAPLIST`, and a value that is
      not a target is not a key. */
  lemma {:induction false} ProposeAllLookup(combo: nat, vars: seq<int>)
    ensures forall k ::
      Get(ProposeAll(combo, vars), k) == (if k in vars then Some(Propose(k, combo, CAPLIST)) else None)
    ensures forall it :: it in ProposeAll(combo, vars) ==> it.proposals == Propose(it.key, combo, CAPLIST)
  {
    if vars != [] {
      var front, k := vars[..|vars| - 1], vars[|vars| - 1];
      ProposeAllLookup(combo, front);
      PutLookup(ProposeAll(combo, front), k, Propose(k, combo, CAPLIST));
      assert vars == front + [k];
    }
  }

  function Flatten(ts: seq<seq<int>>): seq<int>
  {
    if ts == [] then [] else ts[0] + Flatten(ts[1..])
  }

  /** `chain.from_iterable` holds exactly the entries of the tuples. */
  lemma {:induction false} FlattenMembers(ts: seq<seq<int>>, x: int)
    ensures x in Flatten(ts) <==> exists t :: t in ts && x in t
  {
    if ts != [] {
      FlattenMembers(ts[1..], x);
      assert forall t :: t in ts <==> t == ts[0] || t in ts[1..];
    }
  }

  /** `a` is `b` with some entries removed: each entry of `b` is either
      skipped or matched by the next entry of `a`. */
  predicate IsSubsequence<T(==)>(a: seq<T>, b: seq<T>)
  {
    if b == [] then a == []
    else (a != [] && a[0] == b[0] && IsSubsequence(a[1..], b[1..])) || IsSubsequence(a, b[1..])
  }

  /** `has_value(var, d)` (clist.py:62-70): the keys, in dict order, whose
      proposals use `var`. */
  function HasValue(x: int, d: seq<Item>): seq<int>
  {
    if d == [] then []
    else (if x in Flatten(d[0].proposals) then [d[0].key] else []) + HasValue(x, d[1..])
  }

  /** A key is listed exactly when one of its tuples contains `x`. */
  lemma {:induction false} HasValueMembers(x: int, d: seq<Item>)
    ensures forall k :: k in HasValue(x, d) <==>
      exists it :: it in d && it.key == k && x in Flatten(it.proposals)
  {
    if d != [] {
      HasValueMembers(x, d[1..]);
      assert forall it :: it in d <==> it == d[0] || it in d[1..];
    }
  }

  /** The listed keys keep the dict's order. */
  lemma {:induction false} HasValueOrder(x: int, d: seq<Item>)
    ensures IsSubsequence(HasValue(x, d), Keys(d))
  {
    if d != [] {
      HasValueOrder(x, d[1..]);
      var rest := HasValue(x, d[1..]);
      assert Keys(d)[1..] == Keys(d[1..]);
      if x in Flatten(d[0].proposals) {
        assert HasValue(x, d)[1..] == rest;
      } else {
        assert HasValue(x, d) == rest;
      }
    }
  }

  /** `has_value(x, combi_propose_all(combo, *vars))` lists, in order of first
      occurrence, the targets for which some proposed tuple uses `x`. */
  lemma HasValueOfProposeAll(x: int, combo: nat, vars: seq<int>)
    ensures forall k :: k in HasValue(x, ProposeAll(combo, vars)) <==>
      k in vars && exists t :: t in Propose(k, combo, CAPLIST) && x in t
    ensures IsSubsequence(HasValue(x, ProposeAll(combo, vars)), FirstOccurrences(vars))
  {
    var d := ProposeAll(combo, vars);
    ProposeAllKeys(combo, vars);
    ProposeAllLookup(combo, vars);
    HasValueMembers(x, d);
    HasValueOrder(x, d);
    FirstOccurrencesSpec(vars);
    forall k
      ensures k in HasValue(x, d) <==> k in vars && exists t :: t in Propose(k, combo, CAPLIST) && x in t
    {
      FlattenMembers(Propose(k, combo, CAPLIST), x);
      if k in HasValue(x, d) {
        var it :| it in d && it.key == k && x in Flatten(it.proposals);
        var i :| 0 <= i < |d| && d[i] == it;
        assert Keys(d)[i] == k;
      }
      if k in vars && exists t :: t in Propose(k, combo, CAPLIST) && x in t {
        var i :| 0 <= i < |Keys(d)| && Keys(d)[i] == k;
        assert d[i] in d;
      }
    }
  }

  /** `combi_propose_all(2, 100, 128, 100)` has two keys, and `has_value`
      finds 18 under both and 82 only under 100. */
  lemma ProposeAllExample()
    ensures ProposeAll(2, [100, 128, 100]) == [Item(100, [[18, 82]]), Item(128, [[18, 110]])]
    ensures HasValue(18, ProposeAll(2, [100, 128, 100])) == [100, 128]
    ensures HasValue(82, ProposeAll(2, [100, 128, 100])) == [100]
  {
    ProposeDoctest100();
    ProposeDoctest128();
    var d1 := ProposeAll(2, [100]);
    assert [100][..0] == [];
    assert d1 == [Item(100, [[18, 82]])];
    var d2 := ProposeAll(2, [100, 128]);
    assert [100, 128][..1] == [100];
    assert d2 == [Item(100, [[18, 82]]), Item(128, [[18, 110]])];
    assert [100, 128, 100][..2] == [100, 128];
    assert Flatten([[18, 82]]) == [18, 82];
    assert Flatten([[18, 110]]) == [18, 110];
  }
}

