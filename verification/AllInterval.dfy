/** The all-interval series problem: a 0/1 encoding, and the enumeration of all its models. */
module AllInterval {
  import opened Logic
  import opened Sets

  // ----- the problem -----

  ghost predicate IsPermutation(s: seq<int>, low: int, high: int) {
    && (forall i | 0 <= i < |s| :: low <= s[i] < high)
    && Distinct(s)
    && (forall v | low <= v < high :: v in s)
  }

  function Gap(a: int, b: int): nat {
    if a < b then b - a else a - b
  }

  function Gaps(p: seq<int>): seq<int>
    requires |p| >= 1
  {
    seq(|p| - 1, j requires 0 <= j < |p| - 1 => Gap(p[j], p[j + 1]))
  }

  /** A permutation of 0..n-1 whose neighbours differ by 1..n-1 in some order. */
  ghost predicate Series(p: seq<int>, n: nat) {
    n >= 1 && |p| == n && IsPermutation(p, 0, n) && IsPermutation(Gaps(p), 1, n)
  }

  // ----- the encoding -----

  function X(i: nat, j: nat): Formula {
    Atom(Cell(i, j))
  }

  function Row(n: nat, i: nat): seq<Formula> {
    seq(n, j requires 0 <= j => X(i, j))
  }

  function Column(n: nat, j: nat): seq<Formula> {
    seq(n, i requires 0 <= i => X(i, j))
  }

  /** `diff_at_j_is_i`: rows j and j + 1 have their true cells i columns apart. */
  function DiffAt(n: nat, j: nat, i: nat): Formula
    requires 1 <= i <= n
  {
    Or(seq(n - i, t requires 0 <= t => And([X(j, t + i), X(j + 1, t)])) +
       seq(n - i, k requires 0 <= k => And([X(j, k), X(j + 1, k + i)])))
  }

  function GapsAt(n: nat, j: nat): seq<Formula>
    requires n >= 1
  {
    seq(n - 1, i requires 0 <= i < n - 1 => DiffAt(n, j, i + 1))
  }

  function PositionsOf(n: nat, i: nat): seq<Formula>
    requires 0 <= i < n - 1
  {
    seq(n - 1, j requires 0 <= j => DiffAt(n, j, i + 1))
  }

  /** "Exactly one", as the source writes it. */
  function One(fs: seq<Formula>): seq<Formula> {
    [AtMost(fs, 1), Or(fs)]
  }

  ghost predicate ExactlyOne(w: World, fs: seq<Formula>) {
    exists k :: IsTheOne(w, fs, k)
  }

  ghost predicate IsTheOne(w: World, fs: seq<Formula>, k: int) {
    0 <= k < |fs| && forall t | 0 <= t < |fs| :: Eval(w, fs[t], Literal) <==> t == k
  }

  /** The four families of the encoding, as what they say about a world. */
  ghost predicate Encodes(w: World, n: nat)
    requires n >= 1
  {
    && (forall i | 0 <= i < n :: ExactlyOne(w, Row(n, i)))
    && (forall j | 0 <= j < n :: ExactlyOne(w, Column(n, j)))
    && (forall j | 0 <= j < n - 1 :: ExactlyOne(w, GapsAt(n, j)))
    && (forall i | 0 <= i < n - 1 :: ExactlyOne(w, PositionsOf(n, i)))
  }

  lemma {:induction false} CountZero(w: World, fs: seq<Formula>)
    ensures CountTrue(w, fs, Literal) == 0 <==> forall t | 0 <= t < |fs| :: !Eval(w, fs[t], Literal)
  {
    if fs != [] {
      CountZero(w, fs[1..]);
      assert forall t | 1 <= t < |fs| :: fs[t] == fs[1..][t - 1];
    }
  }

  lemma {:induction false} OneMeansExactlyOne(w: World, fs: seq<Formula>)
    ensures Models(w, One(fs)) <==> ExactlyOne(w, fs)
  {
    CountOne(w, fs);
    assert Models(w, One(fs)) <==> Eval(w, One(fs)[0], Literal) && Eval(w, One(fs)[1], Literal);
    CountZero(w, fs);
  }

  lemma {:induction false} CountOne(w: World, fs: seq<Formula>)
    ensures CountTrue(w, fs, Literal) == 1 <==> ExactlyOne(w, fs)
  {
    if fs != [] {
      var rest := fs[1..];
      CountOne(w, rest);
      CountZero(w, rest);
      assert forall t | 1 <= t < |fs| :: fs[t] == rest[t - 1];
      if Eval(w, fs[0], Literal) {
        if CountTrue(w, fs, Literal) == 1 { assert IsTheOne(w, fs, 0); }
        if k :| IsTheOne(w, fs, k) { assert k == 0; }
      } else {
        if k :| IsTheOne(w, rest, k) { assert IsTheOne(w, fs, k + 1); }
        if k :| IsTheOne(w, fs, k) { assert IsTheOne(w, rest, k - 1); }
      }
    }
  }

  // ----- the encoding is exact -----

  ghost predicate Represents(w: World, p: seq<int>, n: nat) {
    && |p| == n
    && (forall i | 0 <= i < n :: 0 <= p[i] < n)
    && forall i: nat, j: nat | i < n && j < n :: w(X(i, j)) <==> p[i] == j
  }

  lemma PairMeans(w: World, p: seq<int>, n: nat, r: nat, a: nat, b: nat)
    requires Represents(w, p, n) && r + 1 < n && a < n && b < n
    ensures Eval(w, And([X(r, a), X(r + 1, b)]), Literal) <==> p[r] == a && p[r + 1] == b
  {
    var fs := [X(r, a), X(r + 1, b)];
    assert Eval(w, X(r, a), Literal) == w(X(r, a)) && Eval(w, X(r + 1, b), Literal) == w(X(r + 1, b));
    assert fs[0] in fs && fs[1] in fs && forall g | g in fs :: g == fs[0] || g == fs[1];
  }

  lemma EvalOr(w: World, fs: seq<Formula>)
    ensures Eval(w, Or(fs), Literal) <==> exists t | 0 <= t < |fs| :: Eval(w, fs[t], Literal)
  {}

  lemma DiffMembers(w: World, p: seq<int>, n: nat, j: nat, i: nat, t: nat)
    requires Represents(w, p, n) && j + 1 < n && 1 <= i < n && t < n - i
    ensures Eval(w, DiffAt(n, j, i).fs[t], Literal) <==> p[j] == t + i && p[j + 1] == t
    ensures Eval(w, DiffAt(n, j, i).fs[n - i + t], Literal) <==> p[j] == t && p[j + 1] == t + i
  {
    hide Eval;
    PairMeans(w, p, n, j, t + i, t);
    PairMeans(w, p, n, j, t, t + i);
  }

  lemma DiffSome(w: World, p: seq<int>, n: nat, j: nat, i: nat, t: nat)
    requires Represents(w, p, n) && j + 1 < n && 1 <= i < n
    requires t < |DiffAt(n, j, i).fs| && Eval(w, DiffAt(n, j, i).fs[t], Literal)
    ensures Gap(p[j], p[j + 1]) == i
  {
    hide Eval;
    if t < n - i { DiffMembers(w, p, n, j, i, t); } else { DiffMembers(w, p, n, j, i, t - (n - i)); }
  }

  lemma DiffMeansGap(w: World, p: seq<int>, n: nat, j: nat, i: nat)
    requires Represents(w, p, n) && j + 1 < n && 1 <= i < n
    ensures Eval(w, DiffAt(n, j, i), Literal) <==> Gap(p[j], p[j + 1]) == i
  {
    var fs := DiffAt(n, j, i).fs;
    assert DiffAt(n, j, i) == Or(fs) && |fs| == 2 * (n - i);
    hide Eval, DiffAt, Represents;
    EvalOr(w, fs);
    if Eval(w, Or(fs), Literal) {
      var t :| 0 <= t < |fs| && Eval(w, fs[t], Literal);
      DiffSome(w, p, n, j, i, t);
    }
    if p[j] == p[j + 1] + i { DiffMembers(w, p, n, j, i, p[j + 1]); }
    if p[j + 1] == p[j] + i { DiffMembers(w, p, n, j, i, p[j]); }
  }

  /** What the rows of a world spell. */
  ghost function Decode(w: World, n: nat): (p: seq<int>)
    requires n >= 1 && Encodes(w, n)
    ensures Represents(w, p, n)
  {
    var p := seq(n, i requires 0 <= i < n => var k :| IsTheOne(w, Row(n, i), k); k);
    assert Represents(w, p, n) by {
      forall i: nat, j: nat | i < n && j < n ensures w(X(i, j)) <==> p[i] == j {
        assert IsTheOne(w, Row(n, i), p[i]);
        assert Row(n, i)[j] == X(i, j);
      }
      forall i | 0 <= i < n ensures 0 <= p[i] < n {
        assert IsTheOne(w, Row(n, i), p[i]);
      }
    }
    p
  }

  lemma ColumnMeans(w: World, p: seq<int>, n: nat, v: nat)
    requires Represents(w, p, n) && v < n
    ensures forall t | 0 <= t < n :: Eval(w, Column(n, v)[t], Literal) <==> p[t] == v
  {
    forall t: nat | t < n ensures Eval(w, Column(n, v)[t], Literal) <==> p[t] == v {
      assert Column(n, v)[t] == X(t, v);
    }
  }

  lemma PositionMeans(w: World, p: seq<int>, n: nat, i: nat)
    requires Represents(w, p, n) && i < n - 1
    ensures forall t | 0 <= t < n - 1 :: Eval(w, PositionsOf(n, i)[t], Literal) <==> Gaps(p)[t] == i + 1
  {
    hide Eval, DiffAt;
    forall t: nat | t < n - 1 ensures Eval(w, PositionsOf(n, i)[t], Literal) <==> Gaps(p)[t] == i + 1 {
      DiffMeansGap(w, p, n, t, i + 1);
    }
  }

  lemma PermutationFromWorld(w: World, p: seq<int>, n: nat)
    requires n >= 1 && Represents(w, p, n) && Encodes(w, n)
    ensures IsPermutation(p, 0, n)
  {
    hide Eval;
    forall v | 0 <= v < n ensures v in p {
      var k :| IsTheOne(w, Column(n, v), k);
      ColumnMeans(w, p, n, v);
      assert p[k] == v;
    }
    forall a, b | 0 <= a < b < n ensures p[a] != p[b] {
      var k :| IsTheOne(w, Column(n, p[a]), k);
      ColumnMeans(w, p, n, p[a]);
      assert k == a;
    }
  }

  lemma SeriesFromWorld(w: World, p: seq<int>, n: nat)
    requires n >= 1 && Represents(w, p, n) && Encodes(w, n)
    ensures Series(p, n)
  {
    hide Eval, DiffAt;
    PermutationFromWorld(w, p, n);
    var g := Gaps(p);
    assert forall j | 0 <= j < n - 1 :: 1 <= g[j] < n;
    hide *;
    forall v | 1 <= v < n ensures v in g {
      var k := GapOnce(w, p, n, v);
      assert g[k] == v;
    }
    forall a, b | 0 <= a < b < n - 1 ensures g[a] != g[b] {
      var k := GapOnce(w, p, n, g[a]);
      assert k == a;
    }
    IsSeries(p, n);
  }

  lemma GapOnce(w: World, p: seq<int>, n: nat, v: int) returns (k: int)
    requires Represents(w, p, n) && 1 <= v < n && Encodes(w, n)
    ensures |p| == n && |Gaps(p)| == n - 1 && 0 <= k < n - 1
    ensures forall t | 0 <= t < n - 1 :: Gaps(p)[t] == v <==> t == k
  {
    hide Eval, DiffAt;
    k :| IsTheOne(w, PositionsOf(n, v - 1), k);
    PositionMeans(w, p, n, v - 1);
  }

  lemma IsSeries(p: seq<int>, n: nat)
    requires n >= 1 && |p| == n && IsPermutation(p, 0, n)
    requires forall j | 0 <= j < n - 1 :: 1 <= Gaps(p)[j] < n
    requires forall v | 1 <= v < n :: v in Gaps(p)
    requires forall a, b | 0 <= a < b < n - 1 :: Gaps(p)[a] != Gaps(p)[b]
    ensures Series(p, n)
  {}

  lemma RowFromSeries(w: World, p: seq<int>, n: nat, i: nat)
    requires Series(p, n) && Represents(w, p, n) && i < n
    ensures ExactlyOne(w, Row(n, i))
  {
    forall t: nat | t < n ensures Eval(w, Row(n, i)[t], Literal) <==> t == p[i] {
      assert Row(n, i)[t] == X(i, t);
    }
    assert IsTheOne(w, Row(n, i), p[i]);
  }

  lemma GapsFromSeries(w: World, p: seq<int>, n: nat, j: nat)
    requires Series(p, n) && Represents(w, p, n) && j < n - 1
    ensures ExactlyOne(w, GapsAt(n, j))
  {
    hide Eval, DiffAt;
    var g := Gaps(p);
    forall t: nat | t < n - 1 ensures Eval(w, GapsAt(n, j)[t], Literal) <==> g[j] == t + 1 {
      DiffMeansGap(w, p, n, j, t + 1);
    }
    assert 1 <= g[j] < n;
    assert IsTheOne(w, GapsAt(n, j), g[j] - 1);
  }

  lemma ColumnFromSeries(w: World, p: seq<int>, n: nat, j: nat)
    requires Series(p, n) && Represents(w, p, n) && j < n
    ensures ExactlyOne(w, Column(n, j))
  {
    ColumnMeans(w, p, n, j);
    assert j in p;
    var k :| 0 <= k < n && p[k] == j;
    assert IsTheOne(w, Column(n, j), k);
  }

  lemma PositionsLength(n: nat, i: nat)
    requires i < n - 1
    ensures |PositionsOf(n, i)| == n - 1
  {}

  lemma TheOneIsExact(w: World, fs: seq<Formula>, k: int)
    requires 0 <= k < |fs| && forall t | 0 <= t < |fs| :: Eval(w, fs[t], Literal) <==> t == k
    ensures ExactlyOne(w, fs)
  {
    assert IsTheOne(w, fs, k);
  }

  lemma PositionsFromSeries(w: World, p: seq<int>, n: nat, i: nat)
    requires Series(p, n) && Represents(w, p, n) && i < n - 1
    ensures ExactlyOne(w, PositionsOf(n, i))
  {
    hide Eval, DiffAt, Represents;
    PositionMeans(w, p, n, i);
    assert i + 1 in Gaps(p);
    var k :| 0 <= k < n - 1 && Gaps(p)[k] == i + 1;
    forall t | 0 <= t < n - 1 ensures Eval(w, PositionsOf(n, i)[t], Literal) <==> t == k {
      assert Gaps(p)[t] == Gaps(p)[k] <==> t == k;
    }
    hide *;
    PositionsLength(n, i);
    TheOneIsExact(w, PositionsOf(n, i), k);
  }

  lemma WorldFromSeries(w: World, p: seq<int>, n: nat)
    requires Series(p, n) && Represents(w, p, n)
    ensures Encodes(w, n)
  {
    hide Eval, DiffAt, Row, Column, GapsAt, PositionsOf, ExactlyOne, Series, Represents;
    forall i | 0 <= i < n ensures ExactlyOne(w, Row(n, i)) { RowFromSeries(w, p, n, i); }
    forall j | 0 <= j < n ensures ExactlyOne(w, Column(n, j)) { ColumnFromSeries(w, p, n, j); }
    forall j | 0 <= j < n - 1 ensures ExactlyOne(w, GapsAt(n, j)) { GapsFromSeries(w, p, n, j); }
    forall i | 0 <= i < n - 1 ensures ExactlyOne(w, PositionsOf(n, i)) { PositionsFromSeries(w, p, n, i); }
  }

  /** The world that spells `p`. */
  function Spell(p: seq<int>): World {
    (f: Formula) => f.Atom? && f.symbol.Cell? && f.symbol.row < |p| && p[f.symbol.row] == f.symbol.col
  }

  /** The encoding is exact: its worlds are the series, one to one. */
  lemma EncodingIsExact(n: nat, w: World)
    requires n >= 1
    ensures Encodes(w, n) <==> exists p :: Series(p, n) && Represents(w, p, n)
    ensures forall p, q :: Represents(w, p, n) && Represents(w, q, n) ==> p == q
    ensures forall p :: Series(p, n) ==> Represents(Spell(p), p, n) && Encodes(Spell(p), n)
  {
    if Encodes(w, n) {
      SeriesFromWorld(w, Decode(w, n), n);
    }
    if p :| Series(p, n) && Represents(w, p, n) {
      WorldFromSeries(w, p, n);
    }
    forall p: seq<int>, q: seq<int> | Represents(w, p, n) && Represents(w, q, n) ensures p == q {
      forall i: nat | i < n ensures p[i] == q[i] {
        var j: nat := p[i];
        assert w(X(i, j));
      }
    }
    forall p | Series(p, n) ensures Represents(Spell(p), p, n) && Encodes(Spell(p), n) {
      WorldFromSeries(Spell(p), p, n);
    }
  }

  // ----- asserting the encoding -----

  function Rows(n: nat): seq<seq<Formula>> {
    seq(n, i requires 0 <= i => Row(n, i))
  }

  function Columns(n: nat): seq<seq<Formula>> {
    seq(n, j requires 0 <= j => Column(n, j))
  }

  /** The matrix `dji`. */
  function GapMatrix(n: nat): seq<seq<Formula>>
    requires n >= 1
  {
    seq(n - 1, j requires 0 <= j < n - 1 => GapsAt(n, j))
  }

  function GapColumns(n: nat): seq<seq<Formula>>
    requires n >= 1
  {
    seq(n - 1, i requires 0 <= i < n - 1 => PositionsOf(n, i))
  }

  function Constraints(n: nat): seq<Formula>
    requires n >= 1
  {
    AllOnes(Rows(n)) + AllOnes(Columns(n)) + AllOnes(GapMatrix(n)) + AllOnes(GapColumns(n))
  }

  function AllOnes(families: seq<seq<Formula>>): seq<Formula> {
    if families == [] then [] else
      AllOnes(families[..|families| - 1]) + One(families[|families| - 1])
  }

  lemma {:induction false} AllOnesMeans(w: World, families: seq<seq<Formula>>)
    ensures Models(w, AllOnes(families)) <==> forall t | 0 <= t < |families| :: ExactlyOne(w, families[t])
  {
    if families != [] {
      var init, last := families[..|families| - 1], families[|families| - 1];
      AllOnesMeans(w, init);
      OneMeansExactlyOne(w, last);
      ModelsAppend(w, AllOnes(init), One(last));
      hide Eval, ExactlyOne, One, Models, AllOnes;
      assert forall t | 0 <= t < |init| :: init[t] == families[t];
    }
  }

  lemma ModelsAppend(w: World, fs: seq<Formula>, gs: seq<Formula>)
    ensures Models(w, fs + gs) <==> Models(w, fs) && Models(w, gs)
  {
    assert forall f | f in fs :: f in fs + gs;
    assert forall g | g in gs :: g in fs + gs;
  }

  lemma ConstraintsMeanEncodes(w: World, n: nat)
    requires n >= 1
    ensures Models(w, Constraints(n)) <==> Encodes(w, n)
  {
    hide Eval, ExactlyOne, Models, AllOnes, Row, Column, GapsAt, PositionsOf;
    var a, b, c, d := Rows(n), Columns(n), GapMatrix(n), GapColumns(n);
    AllOnesMeans(w, a);
    AllOnesMeans(w, b);
    AllOnesMeans(w, c);
    AllOnesMeans(w, d);
    ModelsAppend(w, AllOnes(a) + AllOnes(b) + AllOnes(c), AllOnes(d));
    ModelsAppend(w, AllOnes(a) + AllOnes(b), AllOnes(c));
    ModelsAppend(w, AllOnes(a), AllOnes(b));
    assert (forall t | 0 <= t < |a| :: ExactlyOne(w, a[t])) <==> forall i | 0 <= i < n :: ExactlyOne(w, Row(n, i)) by {
      assert forall i | 0 <= i < n :: a[i] == Row(n, i);
    }
    assert (forall t | 0 <= t < |b| :: ExactlyOne(w, b[t])) <==>
           forall i | 0 <= i < n :: ExactlyOne(w, Column(n, i)) by {
      assert forall i | 0 <= i < n :: b[i] == Column(n, i);
    }
    assert (forall t | 0 <= t < |c| :: ExactlyOne(w, c[t])) <==>
           forall i | 0 <= i < n - 1 :: ExactlyOne(w, GapsAt(n, i)) by {
      assert forall i | 0 <= i < n - 1 :: c[i] == GapsAt(n, i);
    }
    assert (forall t | 0 <= t < |d| :: ExactlyOne(w, d[t])) <==>
           forall i | 0 <= i < n - 1 :: ExactlyOne(w, PositionsOf(n, i)) by {
      assert forall i | 0 <= i < n - 1 :: d[i] == PositionsOf(n, i);
    }
  }

  method AddOne(solver: Solver, fs: seq<Formula>)
    modifies solver`asserted
    ensures solver.asserted == old(solver.asserted) + One(fs)
  {
    solver.Add(AtMost(fs, 1));
    solver.Add(Or(fs));
  }

  /** One loop of `ais`. */
  method AddEach(solver: Solver, families: seq<seq<Formula>>)
    modifies solver`asserted
    ensures solver.asserted == old(solver.asserted) + AllOnes(families)
  {
    for i := 0 to |families|
      invariant solver.asserted == old(solver.asserted) + AllOnes(families[..i])
    {
      assert families[..i + 1][..i] == families[..i];
      AddOne(solver, families[i]);
    }
    assert families[..|families|] == families;
  }

  /** `ais`: asserts the encoding for n. */
  method Ais(n: nat, solver: Solver)
    requires n >= 1 && solver.asserted == []
    modifies solver`asserted
    ensures solver.asserted == Constraints(n)
  {
    hide AllOnes, Rows, Columns, GapMatrix, GapColumns;
    AddEach(solver, Rows(n));
    AddEach(solver, Columns(n));
    AddEach(solver, GapMatrix(n));
    AddEach(solver, GapColumns(n));
  }

  // ----- enumeration -----

  /** The true cells of the world that spells `p`. */
  function Block(p: seq<int>): seq<Formula>
    requires forall i | 0 <= i < |p| :: p[i] >= 0
  {
    seq(|p|, i requires 0 <= i < |p| => X(i, p[i]))
  }

  /** Reads the series out of a model; the assertion of the source never fails. */
  method ProcessModel(m: World, n: nat) returns (block: seq<Formula>, values: seq<int>)
    requires n >= 1 && Encodes(m, n)
    ensures Represents(m, values, n) && block == Block(values)
  {
    hide Eval, Row;
    ghost var p := Decode(m, n);
    block, values := [], [];
    for i := 0 to n
      invariant values == p[..i] && block == Block(p)[..i]
    {
      var k := -1;
      for j := 0 to n
        invariant k == if p[i] < j then p[i] else -1
        invariant block == Block(p)[..if p[i] < j then i + 1 else i]
      {
        if m(X(i, j)) {
          assert k == -1;
          block := block + [X(i, j)];
          k := j;
        }
      }
      values := values + [k];
    }
    assert p[..n] == p && Block(p)[..n] == Block(p);
  }

  /** A blocking clause removes exactly the world it was read from. */
  lemma BlockRemovesOne(w: World, p: seq<int>, n: nat)
    requires n >= 1 && Encodes(w, n) && Series(p, n)
    ensures Eval(w, Not(And(Block(p))), Literal) <==> !Represents(w, p, n)
  {
    var q := Decode(w, n);
    hide Encodes, Series;
    assert |p| == n && (forall i | 0 <= i < n :: 0 <= p[i] < n) by { SeriesShape(p, n); }
    forall i: nat | i < n ensures Eval(w, Block(p)[i], Literal) <==> p[i] == q[i] {
      assert Block(p)[i] == X(i, p[i]);
    }
    if p == q {
      forall g | g in Block(p) ensures Eval(w, g, Literal) {}
    } else {
      var i :| 0 <= i < n && p[i] != q[i];
      assert Block(p)[i] in Block(p);
      assert !w(X(i, p[i]));
    }
  }

  lemma SeriesShape(p: seq<int>, n: nat)
    requires Series(p, n)
    ensures |p| == n && forall i | 0 <= i < n :: 0 <= p[i] < n
  {}

  /** The worlds of the assertions are the worlds of the encoding that are not listed yet. */
  ghost predicate Remaining(asserted: seq<Formula>, n: nat, listed: seq<seq<int>>)
    requires n >= 1
  {
    forall w: World :: Models(w, asserted) <==> Encodes(w, n) && forall p | p in listed :: !Represents(w, p, n)
  }

  lemma RemainingStep(asserted: seq<Formula>, n: nat, listed: seq<seq<int>>, p: seq<int>)
    requires n >= 1 && Remaining(asserted, n, listed) && Series(p, n)
    ensures Remaining(asserted + [Not(And(Block(p)))], n, listed + [p])
  {
    var clause := Not(And(Block(p)));
    forall w: World
      ensures Models(w, asserted + [clause]) <==> Encodes(w, n) && forall q | q in listed + [p] :: !Represents(w, q, n)
    {
      ModelsAppend(w, asserted, [clause]);
      assert Models(w, [clause]) <==> Eval(w, [clause][0], Literal);
      if Encodes(w, n) { BlockRemovesOne(w, p, n); }
      hide Eval, Encodes, Represents, Models;
      assert p in listed + [p] && forall q | q in listed + [p] :: q in listed || q == p;
      assert forall q | q in listed :: q in listed + [p];
    }
  }

  lemma NothingRemains(asserted: seq<Formula>, n: nat, listed: seq<seq<int>>, p: seq<int>)
    requires n >= 1 && Remaining(asserted, n, listed) && !Satisfiable(asserted)
    requires Series(p, n)
    ensures p in listed
  {
    var w := Spell(p);
    EncodingIsExact(n, w);
    hide Eval, Encodes, Series;
    assert !Models(w, asserted);
  }

  ghost function Candidates(n: nat, length: nat): set<seq<int>> {
    if length == 0 then {[]} else
      set s, v | s in Candidates(n, length - 1) && v in Values(n) :: s + [v]
  }

  ghost function Values(n: nat): (vs: set<int>)
    ensures forall v | 0 <= v < n :: v in vs
  {
    if n == 0 then {} else Values(n - 1) + {n - 1}
  }

  lemma {:induction false} InCandidates(s: seq<int>, n: nat)
    requires forall i | 0 <= i < |s| :: 0 <= s[i] < n
    ensures s in Candidates(n, |s|)
  {
    if s != [] {
      var init, last := s[..|s| - 1], s[|s| - 1];
      InCandidates(init, n);
      assert s == init + [last] && last in Values(n);
    }
  }

  /** All the series for n. */
  ghost function AllSeries(n: nat): set<seq<int>> {
    set p | p in Candidates(n, n) && Series(p, n)
  }

  lemma AllSeriesIsAll(n: nat, p: seq<int>)
    ensures p in AllSeries(n) <==> Series(p, n)
  {
    if Series(p, n) { InCandidates(p, n); }
  }

  lemma {:induction false} DistinctSize<T>(s: seq<T>)
    requires Distinct(s)
    ensures |set x | x in s| == |s|
  {
    if s != [] {
      var init, last := s[..|s| - 1], s[|s| - 1];
      DistinctSize(init);
      assert s == init + [last];
      assert (set x | x in s) == (set x | x in init) + {last};
    }
  }

  lemma RemainingInitially(n: nat)
    requires n >= 1
    ensures Remaining(Constraints(n), n, [])
  {
    forall w: World { ConstraintsMeanEncodes(w, n); }
  }

  /** A model of what remains spells a series that is not listed yet. */
  lemma NewSeries(asserted: seq<Formula>, n: nat, listed: seq<seq<int>>, m: World, p: seq<int>)
    requires n >= 1 && Remaining(asserted, n, listed) && Models(m, asserted)
    requires Represents(m, p, n)
    ensures Series(p, n) && p !in listed && p in AllSeries(n)
  {
    SeriesFromWorld(m, p, n);
    AllSeriesIsAll(n, p);
  }

  lemma EncodedModel(asserted: seq<Formula>, n: nat, listed: seq<seq<int>>, m: World)
    requires n >= 1 && Remaining(asserted, n, listed) && Models(m, asserted)
    ensures Encodes(m, n)
  {}

  lemma EmptyCore(core: seq<Formula>, assumptions: seq<Formula>)
    requires forall c | c in core :: c in assumptions
    ensures assumptions == [] ==> core == []
  {
    if core != [] { assert core[0] in assumptions; }
  }

  ghost function Members(listed: seq<seq<int>>): set<seq<int>> {
    set p | p in listed
  }

  lemma AllListed(asserted: seq<Formula>, n: nat, listed: seq<seq<int>>)
    requires n >= 1 && Remaining(asserted, n, listed) && !Satisfiable(asserted)
    requires Distinct(listed) && forall p | p in listed :: Series(p, n)
    ensures forall p :: p in listed <==> Series(p, n)
    ensures |listed| == |AllSeries(n)|
  {
    forall p | Series(p, n) ensures p in listed { NothingRemains(asserted, n, listed, p); }
    forall p: seq<int> ensures p in AllSeries(n) <==> p in listed { AllSeriesIsAll(n, p); }
    DistinctSize(listed);
    assert (set p | p in listed) == AllSeries(n);
  }

  /** Each of the first answers is a model of the series printed for it. */
  ghost predicate Spelled(answers: seq<Answer>, printed: seq<seq<int>>, n: nat) {
    && |printed| <= |answers|
    && forall k | 0 <= k < |printed| :: answers[k].Sat? && Represents(answers[k].model, printed[k], n)
  }

  lemma NothingSpelled(n: nat)
    ensures Spelled([], [], n) && Distinct<seq<int>>([])
  {}

  lemma SpelledNext(answers: seq<Answer>, printed: seq<seq<int>>, n: nat, m: World, p: seq<int>)
    requires Spelled(answers, printed, n) && |answers| == |printed| && Represents(m, p, n)
    ensures Spelled(answers + [Sat(m)], printed + [p], n)
  {
    hide Represents;
  }

  lemma SpelledStays(answers: seq<Answer>, printed: seq<seq<int>>, n: nat, last: Answer)
    requires Spelled(answers, printed, n)
    ensures Spelled(answers + [last], printed, n)
  {
    hide Represents;
  }

  lemma NextListed(printed: seq<seq<int>>, p: seq<int>, n: nat)
    requires Distinct(printed) && p !in printed && p in AllSeries(n)
    ensures Distinct(printed + [p])
    ensures |AllSeries(n) - Members(printed + [p])| < |AllSeries(n) - Members(printed)|
  {
    hide AllSeries;
    assert AllSeries(n) - Members(printed + [p]) == AllSeries(n) - Members(printed) - {p};
  }

  /** Prints every series for n exactly once, in the order of the solver's answers, and counts them. */
  method AllModels(n: nat, solver: Solver) returns (count: nat, printed: seq<seq<int>>)
    requires n >= 1 && solver.Valid() && solver.asserted == []
    modifies solver
    ensures Distinct(printed)
    ensures forall p :: p in printed <==> Series(p, n)
    ensures count == |printed| == |AllSeries(n)|
    ensures |solver.answers| == |old(solver.answers)| + count + 1 && solver.answers[|solver.answers| - 1] == Unsat([])
    ensures Spelled(solver.answers[|old(solver.answers)|..], printed, n)
  {
    hide Eval, Encodes, Series, Represents, Satisfiable, Constraints, Models, Remaining, AllSeries, Spelled, Distinct,
      Block, Faithful, Members;
    count, printed := 0, [];
    Ais(n, solver);
    RemainingInitially(n);
    NothingSpelled(n);
    ghost var made := [];
    assert solver.answers == old(solver.answers) + made;
    while true
      invariant Remaining(solver.asserted, n, printed)
      invariant Distinct(printed) && count == |printed|
      invariant forall p | p in printed :: Series(p, n)
      invariant |made| == count
      invariant solver.answers == old(solver.answers) + made && Spelled(made, printed, n)
      decreases |AllSeries(n) - Members(printed)|
    {
      assert solver.asserted + [] == solver.asserted;
      var ans := solver.Check([]);
      assert solver.answers == old(solver.answers) + (made + [ans]);
      if ans.Unsat? {
        EmptyCore(ans.core, []);
        SpelledStays(made, printed, n, ans);
        made := made + [ans];
        break;
      }
      EncodedModel(solver.asserted, n, printed, ans.model);
      var block, values := ProcessModel(ans.model, n);
      NewSeries(solver.asserted, n, printed, ans.model, values);
      RemainingStep(solver.asserted, n, printed, values);
      NextListed(printed, values, n);
      SpelledNext(made, printed, n, ans.model, values);
      made := made + [ans];
      solver.Add(Not(And(block)));
      printed := printed + [values];
      count := count + 1;
    }
    AllListed(solver.asserted, n, printed);
    assert solver.answers[|old(solver.answers)|..] == made;
  }
}
