/** The strata of the soft constraints: how far each query of `check` goes, and when it goes too far. */
module Strata {
  import opened Logic
  import opened Sets
  import opened Weights

  /** True while the scan that looks for the end of a stratum goes on. */
  predicate SameStratum(s: seq<Formula>, m: Table, i: nat, j: nat)
    requires forall f | f in s :: f in m
    requires i < |s|
  {
    (j < |s| && m[s[j]] == m[s[i]]) || (i > 0 && (j - i) * 20 < |s|)
  }

  /** The least position from `j` on at which the scan stops. */
  ghost function StratumEnd(s: seq<Formula>, m: Table, i: nat, j: nat): (end: nat)
    requires forall f | f in s :: f in m
    requires i < |s| && i <= j <= i + |s|
    ensures end >= j && !SameStratum(s, m, i, end)
    ensures forall t | j <= t < end :: SameStratum(s, m, i, t)
    decreases i + |s| - j
  {
    if SameStratum(s, m, i, j) then StratumEnd(s, m, i, j + 1) else j
  }

  /** The queries of `check`, all answered `sat`, run past the end of the list. */
  ghost predicate Overruns(s: seq<Formula>, m: Table, i: nat)
    requires forall f | f in s :: f in m
    decreases |s| - i
  {
    if i >= |s| then i > |s| else
      assert SameStratum(s, m, i, i);
      Overruns(s, m, StratumEnd(s, m, i, i))
  }

  /** The queries of `check`, up to where the scan passes the end: longer and longer prefixes of the list. */
  ghost function Queries(s: seq<Formula>, m: Table, i: nat): seq<seq<Formula>>
    requires forall f | f in s :: f in m
    decreases |s| - i
  {
    if i >= |s| then [] else
      assert SameStratum(s, m, i, i);
      var end := StratumEnd(s, m, i, i);
      if end > |s| then [] else [s[..end]] + Queries(s, m, end)
  }

  /** Where the next query ends. */
  method NextStratum(s: seq<Formula>, m: Table, i: nat) returns (j: nat)
    requires Descending(s, m) && i < |s|
    ensures i < j == StratumEnd(s, m, i, i)
    ensures j > |s| <==> i > 0 && (|s| - i) * 20 < |s|
  {
    j := i;
    while (j < |s| && m[s[j]] == m[s[i]]) || (i > 0 && (j - i) * 20 < |s|)
      invariant i <= j <= i + |s|
      invariant StratumEnd(s, m, i, j) == StratumEnd(s, m, i, i)
      invariant forall t | i <= t < j :: SameStratum(s, m, i, t)
      decreases i + |s| - j
    {
      j := j + 1;
    }
    if j > |s| { assert SameStratum(s, m, i, |s|); }
  }

  /** A listing of the table, heaviest first. */
  ghost predicate Descending(s: seq<Formula>, m: Table) {
    && Distinct(s) && |s| == |m| && (forall f :: f in s <==> f in m)
    && forall i, j | 0 <= i < j < |s| :: m[s[j]] <= m[s[i]]
  }

  /** The scan passes the end of the list, in whatever order constraints of equal weight are listed. */
  ghost predicate TailOverruns(m: Table) {
    forall s | Descending(s, m) :: Overruns(s, m, 0)
  }

  ghost function FirstOf(s: seq<Formula>, n: nat): set<Formula>
    requires n <= |s|
  {
    set i | 0 <= i < n :: s[i]
  }

  lemma {:induction false} FirstOfSize(s: seq<Formula>, n: nat)
    requires Distinct(s) && n <= |s|
    ensures |FirstOf(s, n)| == n
  {
    if n > 0 {
      FirstOfSize(s, n - 1);
      assert FirstOf(s, n) == FirstOf(s, n - 1) + {s[n - 1]};
    } else {
      assert FirstOf(s, n) == {};
    }
  }

  /** Two listings have the same weights at the same positions. */
  lemma NotHeavier(s: seq<Formula>, t: seq<Formula>, m: Table, i: nat)
    requires Descending(s, m) && Descending(t, m) && i < |s|
    ensures m[s[i]] <= m[t[i]]
  {
    if m[s[i]] > m[t[i]] {
      HeavyComeFirst(s, t, m, i);
      hide *;
      FirstOfSize(s, i + 1);
      FirstOfSize(t, i);
      SubsetSize(FirstOf(s, i + 1), FirstOf(t, i));
      assert false;
    }
  }

  lemma HeavyComeFirst(s: seq<Formula>, t: seq<Formula>, m: Table, i: nat)
    requires Descending(s, m) && Descending(t, m) && i < |s| && m[s[i]] > m[t[i]]
    ensures Distinct(s) && Distinct(t) && i < |s| == |t| && FirstOf(s, i + 1) <= FirstOf(t, i)
  {
    forall f | f in FirstOf(s, i + 1) ensures f in FirstOf(t, i) {
      var a :| 0 <= a <= i && s[a] == f;
      assert f in t;
      var b :| 0 <= b < |t| && t[b] == f;
      assert m[f] >= m[s[i]];
      assert b < i;
    }
  }

  lemma {:induction false} StratumEndSame(s: seq<Formula>, t: seq<Formula>, m: Table, i: nat, j: nat)
    requires (forall f | f in s :: f in m) && (forall f | f in t :: f in m)
    requires |s| == |t| && forall k | 0 <= k < |s| :: m[s[k]] == m[t[k]]
    requires i < |s| && i <= j <= i + |s|
    ensures StratumEnd(s, m, i, j) == StratumEnd(t, m, i, j)
    decreases i + |s| - j
  {
    if SameStratum(s, m, i, j) { StratumEndSame(s, t, m, i, j + 1); }
  }

  lemma {:induction false} OverrunsSame(s: seq<Formula>, t: seq<Formula>, m: Table, i: nat)
    requires (forall f | f in s :: f in m) && (forall f | f in t :: f in m)
    requires |s| == |t| && forall k | 0 <= k < |s| :: m[s[k]] == m[t[k]]
    ensures Overruns(s, m, i) == Overruns(t, m, i)
    decreases |s| - i
  {
    if i < |s| {
      assert SameStratum(s, m, i, i);
      StratumEndSame(s, t, m, i, i);
      OverrunsSame(s, t, m, StratumEnd(s, m, i, i));
    }
  }

  /** One listing decides for all. */
  lemma OrderIrrelevant(s: seq<Formula>, m: Table)
    requires Descending(s, m)
    ensures TailOverruns(m) <==> Overruns(s, m, 0)
  {
    forall t | Descending(t, m) ensures Overruns(s, m, 0) == Overruns(t, m, 0) {
      forall k | 0 <= k < |s| ensures m[s[k]] == m[t[k]] {
        NotHeavier(s, t, m, k);
        NotHeavier(t, s, m, k);
      }
      OverrunsSame(s, t, m, 0);
    }
  }

  ghost predicate Uniform(m: Table) {
    forall f, g | f in m && g in m :: m[f] == m[g]
  }

  /** Soft constraints of one weight are one stratum. */
  lemma OneStratum(s: seq<Formula>, m: Table)
    requires Uniform(m) && (forall f | f in s :: f in m) && s != []
    ensures StratumEnd(s, m, 0, 0) == |s|
  {
    assert forall t | 0 <= t < |s| :: SameStratum(s, m, 0, t);
    assert !SameStratum(s, m, 0, |s|);
  }

  lemma UniformFits(s: seq<Formula>, m: Table)
    requires Uniform(m) && forall f | f in s :: f in m
    ensures !Overruns(s, m, 0)
  {
    if s != [] { OneStratum(s, m); }
  }

  lemma Listing(s: seq<Formula>, m: Table)
    requires Descending(s, m)
    ensures TailOverruns(m) <==> Overruns(s, m, 0)
    ensures Uniform(m) ==> !Overruns(s, m, 0) && (s != [] ==> StratumEnd(s, m, 0, 0) == |s|)
  {
    OrderIrrelevant(s, m);
    if Uniform(m) {
      UniformFits(s, m);
      if s != [] { OneStratum(s, m); }
    }
  }

  /** One soft constraint that is lighter than more than 19 equally heavy ones. */
  ghost predicate LightTail(m: Table, light: Formula) {
    && |m| > 20 && light in m
    && forall f | f in m && f != light :: m[light] < m[f] && forall g | g in m && g != light :: m[f] == m[g]
  }

  lemma LightTailOverruns(m: Table, light: Formula)
    requires LightTail(m, light)
    ensures TailOverruns(m)
  {
    forall s | Descending(s, m) ensures Overruns(s, m, 0) {
      LightIsLast(s, m, light);
      LightLast(s, m);
    }
  }

  lemma LightIsLast(s: seq<Formula>, m: Table, light: Formula)
    requires LightTail(m, light) && Descending(s, m)
    ensures s[|s| - 1] == light
    ensures forall t | 0 <= t < |s| - 1 :: m[s[t]] == m[s[0]] > m[light]
  {
    assert light in s;
    var k :| 0 <= k < |s| && s[k] == light;
    assert m[s[|s| - 1]] <= m[s[k]];
    assert k == |s| - 1;
    forall t | 0 <= t < |s| - 1 ensures s[t] != light && m[s[t]] == m[s[0]] > m[light] {
      assert s[0] != light;
    }
  }

  lemma LightLast(s: seq<Formula>, m: Table)
    requires |s| > 20 && forall f | f in s :: f in m
    requires forall t | 0 <= t < |s| - 1 :: m[s[t]] == m[s[0]]
    requires m[s[|s| - 1]] < m[s[0]]
    ensures Overruns(s, m, 0)
  {
    var last := |s| - 1;
    var end := StratumEnd(s, m, 0, 0);
    assert !SameStratum(s, m, 0, last);
    assert forall t | 0 <= t < last :: SameStratum(s, m, 0, t);
    assert end == last;
    assert SameStratum(s, m, last, last) && SameStratum(s, m, last, |s|);
    assert StratumEnd(s, m, last, last) > |s|;
    assert Overruns(s, m, last);
  }

  lemma {:induction false} DescendingExists(m: Table) returns (s: seq<Formula>)
    ensures Descending(s, m)
    decreases |m|
  {
    if m == map[] {
      s := [];
    } else {
      HeaviestExists(m);
      var h :| h in m && forall f | f in m :: m[f] <= m[h];
      var rest := DescendingExists(m - {h});
      s := [h] + rest;
      assert forall f | f in rest :: f in m && f != h;
    }
  }

  lemma {:induction false} OverrunsLong(s: seq<Formula>, m: Table, i: nat)
    requires (forall f | f in s :: f in m) && i <= |s| && Overruns(s, m, i)
    ensures |s| > 20
    decreases |s| - i
  {
    assert SameStratum(s, m, i, i);
    var end := StratumEnd(s, m, i, i);
    if end > |s| {
      assert SameStratum(s, m, i, |s|);
    } else {
      OverrunsLong(s, m, end);
    }
  }

  /** A scan past the end needs more than 20 entries, and not all of one weight. */
  lemma TailIsLong(m: Table)
    requires TailOverruns(m)
    ensures |m| > 20 && !Uniform(m)
  {
    var s := DescendingExists(m);
    OverrunsLong(s, m, 0);
    if Uniform(m) { UniformFits(s, m); }
  }
}
