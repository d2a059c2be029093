/** Weighted soft constraints: a dictionary from formulas to weights, and its weighted sums. */
module Weights {
  import opened Logic
  import opened Sets

  type Table = map<Formula, nat>

  /** The sum of weight times value over the whole table. */
  ghost function Sum(m: Table, val: Formula -> nat): nat {
    if m == map[] then 0 else
      var f :| f in m;
      m[f] * val(f) + Sum(m - {f}, val)
  }

  lemma {:induction false} SumRemove(m: Table, f: Formula, val: Formula -> nat)
    requires f in m
    ensures Sum(m, val) == m[f] * val(f) + Sum(m - {f}, val)
    decreases |m|
  {
    var g :| g in m && Sum(m, val) == m[g] * val(g) + Sum(m - {g}, val);
    if g != f {
      SumRemove(m - {g}, f, val);
      SumRemove(m - {f}, g, val);
      assert m - {g} - {f} == m - {f} - {g};
    }
  }

  lemma {:induction false} SumAgrees(m: Table, val: Formula -> nat, val': Formula -> nat)
    requires forall f | f in m :: val(f) == val'(f)
    ensures Sum(m, val) == Sum(m, val')
    decreases |m|
  {
    if m != map[] {
      var g :| g in m;
      SumRemove(m, g, val);
      SumRemove(m, g, val');
      SumAgrees(m - {g}, val, val');
    }
  }

  lemma {:induction false} SumMonotone(m: Table, val: Formula -> nat, val': Formula -> nat)
    requires forall f | f in m :: val(f) <= val'(f)
    ensures Sum(m, val) <= Sum(m, val')
    decreases |m|
  {
    if m != map[] {
      var g :| g in m;
      SumRemove(m, g, val);
      SumRemove(m, g, val');
      ScaleMonotone(m[g], val(g), val'(g));
      SumMonotone(m - {g}, val, val');
    }
  }

  lemma {:induction false} SumZero(m: Table, val: Formula -> nat)
    requires forall f | f in m :: val(f) == 0
    ensures Sum(m, val) == 0
    decreases |m|
  {
    if m != map[] {
      var g :| g in m;
      SumRemove(m, g, val);
      SumZero(m - {g}, val);
    }
  }

  function Added(m: Table, f: Formula, w: nat): Table {
    m[f := w + if f in m then m[f] else 0]
  }

  function Subtracted(m: Table, f: Formula, w: nat): Table
    requires f in m
  {
    if m[f] > w then m[f := m[f] - w] else m - {f}
  }

  lemma SumAdded(m: Table, f: Formula, w: nat, val: Formula -> nat)
    ensures Sum(Added(m, f, w), val) == Sum(m, val) + w * val(f)
  {
    var m' := Added(m, f, w);
    SumRemove(m', f, val);
    assert m' - {f} == m - {f};
    if f in m {
      SumRemove(m, f, val);
      Scale(m[f], w, val(f));
    } else {
      assert m - {f} == m;
    }
  }

  lemma SumSubtracted(m: Table, f: Formula, w: nat, val: Formula -> nat)
    requires f in m && w <= m[f]
    ensures Sum(Subtracted(m, f, w), val) + w * val(f) == Sum(m, val)
  {
    var m' := Subtracted(m, f, w);
    SumRemove(m, f, val);
    Scale(m[f] - w, w, val(f));
    if m[f] > w {
      SumRemove(m', f, val);
      assert m' - {f} == m - {f};
    }
  }

  lemma ScaleMonotone(c: nat, a: int, b: int)
    requires a <= b
    ensures c * a <= c * b
  {}

  lemma Scale(a: int, b: int, c: int)
    ensures (a + b) * c == a * c + b * c
  {}

  lemma Distribute(a: int, b: int, c: int)
    ensures c * (a + b) == c * a + c * b
  {}

  /** 1 where `p` holds and 0 elsewhere. */
  function Indicator(p: Formula -> bool): Formula -> nat {
    f => if p(f) then 1 else 0
  }

  function Always(): Formula -> bool {
    f => true
  }

  /** `sum(m[f] for f in m if p(f))` */
  method WeightWhere(m: Table, p: Formula -> bool) returns (sum: nat)
    ensures sum == Sum(m, Indicator(p))
  {
    sum := 0;
    var rest := m;
    while rest != map[]
      invariant sum + Sum(rest, Indicator(p)) == Sum(m, Indicator(p))
      decreases |rest|
    {
      var f :| f in rest;
      SumRemove(rest, f, Indicator(p));
      if p(f) { sum := sum + rest[f]; }
      rest := rest - {f};
    }
  }

  /** The keys of `m`, heaviest first. */
  method SortByWeight(m: Table) returns (s: seq<Formula>)
    ensures Distinct(s) && |s| == |m|
    ensures forall f :: f in s <==> f in m
    ensures forall i, j | 0 <= i < j < |s| :: m[s[j]] <= m[s[i]]
  {
    s := [];
    var rest := m;
    while rest != map[]
      invariant forall f :: f in m <==> f in s || f in rest
      invariant forall f | f in rest :: f !in s && rest[f] == m[f]
      invariant Distinct(s) && |s| + |rest| == |m|
      invariant forall i, j | 0 <= i < j < |s| :: m[s[j]] <= m[s[i]]
      invariant forall f, i | f in rest && 0 <= i < |s| :: m[f] <= m[s[i]]
      decreases |rest|
    {
      HeaviestExists(rest);
      var h :| h in rest && forall f | f in rest :: rest[f] <= rest[h];
      s := s + [h];
      rest := rest - {h};
    }
  }

  lemma {:induction false} HeaviestExists(m: Table)
    requires m != map[]
    ensures exists h | h in m :: forall f | f in m :: m[f] <= m[h]
    decreases |m|
  {
    var g :| g in m;
    var m' := m - {g};
    if m' != map[] {
      HeaviestExists(m');
      var h :| h in m' && forall f | f in m' :: m'[f] <= m'[h];
      assert forall f | f in m && f != g :: f in m';
      var best := if m[g] <= m[h] then h else g;
      assert forall f | f in m :: m[f] <= m[best];
    } else {
      assert forall f | f in m :: f == g || f in m';
    }
  }
}
